/**
  When the gate allows a command, told from the fields of the command, the lease, the state and
  the configuration alone. The conditions are written in positive form and share no check with
  `Gate`, `Conformance` or `Leases`; `AllowedExactly` is an equivalence.
 */
module GateConditions {
  import opened Core
  import opened Json
  import opened Leases
  import opened Conformance
  import opened Gate
  import PayloadBudget

  const SKEW := 30_000

  predicate NonBlank(s: string) { exists k :: 0 <= k < |s| && !PythonSpace(s[k]) }

  /** No older than `maxAgeSeconds` and the skew, no further ahead than the skew. */
  predicate Recent(timestamp: int, now: int, maxAgeSeconds: int) {
    timestamp - SKEW <= now <= timestamp + 1000 * maxAgeSeconds + SKEW
  }

  // ------------------------------------------------------------- the command

  /** Signed by the agent it names, within budget, and recent. */
  ghost predicate CommandGenuine(cfg: GateConfig, c: Command, now: int) {
    && c.supportedVersion && NonBlank(c.commandId) && NonBlank(c.commandNonce)
    && c.authenticatedAgentId == Some(c.agentId)
    && c.agentId in cfg.agentKeys && cfg.env.commandSigned(c, cfg.agentKeys[c.agentId])
    && PayloadBudget.WithinBudget(PayloadBudget.PythonWeight, c.payload)
    && Recent(c.createdAt, now, cfg.maxCommandAgeSeconds)
  }

  /** The three rows of an authorized use. */
  function RowsOfUse(c: Command, lease: Lease): set<Row> {
    { Row(c.agentId, CommandIdKind, c.commandId), Row(c.agentId, CommandNonceKind, c.commandNonce),
      Row("__lease_nonce__", LeaseNonceKind, lease.nonce) }
  }

  // ------------------------------------------------------------- the lease

  /** Signed by a trusted issuer within its scope, under the accepted policy. */
  ghost predicate LeaseGenuine(cfg: GateConfig, l: Lease) {
    && l.supportedVersion && l.issuerId in cfg.trustedIssuerIds && l.issuerId in cfg.issuerKeys
    && cfg.env.leaseSigned(l, cfg.issuerKeys[l.issuerId])
    && NonBlank(l.policyId) && l.policyId == cfg.acceptedPolicyId
    && NonBlank(l.policyDigest) && l.policyDigest in cfg.acceptedPolicyDigests
    && l.capability in cfg.acceptedCapabilities
    && l.issuerId in cfg.issuerScopes && l.capability in cfg.issuerScopes[l.issuerId]
  }

  predicate LeaseCurrent(cfg: GateConfig, l: Lease, now: int) {
    && l.issuedAt < l.expiresAt <= l.issuedAt + 1000 * cfg.maxLeaseTtlSeconds
    && l.issuedAt - SKEW <= now < l.expiresAt
    && now <= l.issuedAt + 1000 * cfg.maxLeaseAgeSeconds + SKEW
  }

  predicate LimitsSane(c: LeaseConstraints) {
    && (c.maxLatencyMsP95.Some? ==> 0.0 <= c.maxLatencyMsP95.value)
    && (c.maxPacketLossPct.Some? ==> 0.0 <= c.maxPacketLossPct.value <= 100.0)
    && (c.minUplinkMbps.Some? ==> 0.0 <= c.minUplinkMbps.value)
    && (c.maxSpeedMps.Some? ==> 0.0 <= c.maxSpeedMps.value)
  }

  /** The lease names what the requirement asks for. */
  predicate NamesRequired(c: LeaseConstraints, r: Requirement) {
    && (r.requireGeofenceId ==> c.geofenceId.Some?)
    && (r.requireNetworkThresholds ==> c.maxLatencyMsP95.Some? && c.maxPacketLossPct.Some? && c.minUplinkMbps.Some?)
    && (r.requireFallbackOnDegrade ==> c.fallbackGiven)
    && (r.requireMaxSpeedMps ==> c.maxSpeedMps.Some?)
  }

  /** Every limit of the lease stays within the bound, and geofence and fallback are the bound's. */
  predicate WithinBound(c: LeaseConstraints, b: Bounds) {
    && (b.geofenceId.Some? ==> c.geofenceId == b.geofenceId)
    && (c.maxLatencyMsP95.Some? ==> b.maxLatencyMsP95.Some? && c.maxLatencyMsP95.value <= b.maxLatencyMsP95.value)
    && (c.maxPacketLossPct.Some? ==> b.maxPacketLossPct.Some? && c.maxPacketLossPct.value <= b.maxPacketLossPct.value)
    && (c.minUplinkMbps.Some? ==> b.minUplinkMbps.Some? && b.minUplinkMbps.value <= c.minUplinkMbps.value)
    && (c.maxSpeedMps.Some? ==> b.maxSpeedMps.Some? && c.maxSpeedMps.value <= b.maxSpeedMps.value)
    && (b.fallbackOnDegrade.Some? ==> c.fallbackOnDegrade == b.fallbackOnDegrade.value)
    && (b.fallbackOnDegrade.None? ==> !c.fallbackGiven)
  }

  predicate LimitsKept(cfg: GateConfig, l: Lease) {
    && LimitsSane(l.constraints)
    && l.capability in cfg.requirements && cfg.requirements[l.capability].capability == l.capability
    && NamesRequired(l.constraints, cfg.requirements[l.capability])
    && l.capability in cfg.bounds && cfg.bounds[l.capability].capability == l.capability
    && WithinBound(l.constraints, cfg.bounds[l.capability])
  }

  predicate SameSubject(c: Command, l: Lease) {
    && c.agentId == l.agentId && c.edgeAgentId == l.edgeAgentId && c.robotId == l.robotId
    && c.missionId == l.missionId && c.capability == l.capability
  }

  // ------------------------------------------------------------- the state

  predicate StateNeeded(l: Lease) {
    || l.capability == RemoteAssist || l.constraints.geofenceId != None || l.constraints.maxLatencyMsP95 != None
    || l.constraints.maxPacketLossPct != None || l.constraints.minUplinkMbps != None
  }

  /** Signed under the key of its edge, about the robot of the lease, and recent in all four times. */
  ghost predicate StateGenuine(cfg: GateConfig, l: Lease, x: RobotState, now: int) {
    && x.supportedVersion && x.edgeAgentId in cfg.stateKeys && cfg.env.stateSigned(x, cfg.stateKeys[x.edgeAgentId])
    && x.robotId == l.robotId && x.edgeAgentId == l.edgeAgentId && x.missionId == l.missionId
    && Recent(x.createdAt, now, cfg.maxStateAgeSeconds) && Recent(x.observedAt, now, cfg.maxStateAgeSeconds)
    && Recent(x.network.observedAt, now, cfg.maxStateAgeSeconds)
    && Recent(x.geofence.verifiedAt, now, cfg.maxStateAgeSeconds)
  }

  /** Connected, with sane metrics that meet every threshold the lease names, inside the geofence it names. */
  predicate StateAllows(c: LeaseConstraints, x: RobotState) {
    var n := x.network;
    && n.attached && (n.profile.Normal? || n.profile.DegradedTeleop? || n.profile.UplinkBad?)
    && 0.0 <= n.latencyMsP95 && 0.0 <= n.packetLossPct <= 100.0 && 0.0 <= n.uplinkMbps
    && (c.maxLatencyMsP95.Some? ==> n.latencyMsP95 <= c.maxLatencyMsP95.value)
    && (c.maxPacketLossPct.Some? ==> n.packetLossPct <= c.maxPacketLossPct.value)
    && (c.minUplinkMbps.Some? ==> c.minUplinkMbps.value <= n.uplinkMbps)
    && (c.geofenceId.Some? ==> x.geofence.inside && x.geofence.geofenceId == c.geofenceId.value)
  }

  // ------------------------------------------------------------- the payload

  /** The payload asks for no speed but one within the lease's ceiling, and for one if there is a ceiling. */
  predicate SpeedAllowed(numberValue: string -> real, c: LeaseConstraints, payload: Json) {
    && payload.Object?
    && (forall f :: f in payload.fields ==>
        (f == "max_speed_mps" || f == "speed_mps")
        && payload.fields[f].Number? && 0.0 <= numberValue(payload.fields[f].text))
    && (forall f, g :: f in payload.fields && g in payload.fields ==>
        payload.fields[f].Number? && payload.fields[g].Number?
        && numberValue(payload.fields[f].text) == numberValue(payload.fields[g].text))
    && (c.maxSpeedMps.None? ==> payload.fields == map[])
    && (c.maxSpeedMps.Some? ==> payload.fields != map[] && forall f :: f in payload.fields ==>
        payload.fields[f].Number? && numberValue(payload.fields[f].text) <= c.maxSpeedMps.value)
  }

  /** All conditions on command, lease and state; what is left are fresh rows. */
  ghost predicate Authorized(
    cfg: GateConfig, revoked: set<string>, c: Command, l: Lease, state: Option<RobotState>, now: int)
  {
    && CommandGenuine(cfg, c, now) && c.edgeAgentId == cfg.localEdgeAgentId
    && LeaseGenuine(cfg, l) && LeaseCurrent(cfg, l, now) && LimitsKept(cfg, l) && SameSubject(c, l)
    && l.leaseId !in revoked
    && (StateNeeded(l) ==> state.Some?)
    && (state.Some? ==> StateGenuine(cfg, l, state.value, now) && StateAllows(l.constraints, state.value))
    && SpeedAllowed(cfg.env.numberValue, l.constraints, c.payload)
  }

  // ------------------------------------------------------------- the checks of the gate, one by one

  lemma NonBlankExactly(s: string)
    ensures NonBlank(s) <==> !Blank(s)
  {
  }

  lemma CommandExactly(cfg: GateConfig, c: Command, now: int)
    ensures CommandGenuine(cfg, c, now) <==> Auth(cfg, c, now).Valid?
  {
    NonBlankExactly(c.commandId);
    NonBlankExactly(c.commandNonce);
  }

  lemma LimitsExactly(cfg: GateConfig, l: Lease)
    ensures LimitsKept(cfg, l) <==>
            && ConstraintsWellFormed(l.constraints)
            && RequirementViolation(l, cfg.requirements).Valid? && BoundViolation(l, cfg.bounds).Valid?
  {
  }

  lemma LeaseExactly(cfg: GateConfig, c: Command, l: Lease, revoked: set<string>, now: int)
    ensures AboutLease(cfg, l, c, revoked, now).Valid? <==>
            && LeaseGenuine(cfg, l) && LeaseCurrent(cfg, l, now) && LimitsKept(cfg, l) && SameSubject(c, l)
            && l.leaseId !in revoked
  {
    NonBlankExactly(l.policyId);
    NonBlankExactly(l.policyDigest);
    LimitsExactly(cfg, l);
  }

  lemma StateExactly(cfg: GateConfig, l: Lease, state: Option<RobotState>, now: int)
    ensures AboutState(cfg, l, state, now).Valid? <==>
            && (StateNeeded(l) ==> state.Some?)
            && (state.Some? ==> StateGenuine(cfg, l, state.value, now) && StateAllows(l.constraints, state.value))
  {
  }

  lemma SpeedExactly(numberValue: string -> real, c: LeaseConstraints, payload: Json)
    requires LimitsSane(c)
    ensures SpeedAllowed(numberValue, c, payload) <==> AgainstPayload(numberValue, c, payload).Valid?
  {
    if payload.Object? {
      assert payload.fields.Keys <= {"max_speed_mps", "speed_mps"} <==>
             forall f :: f in payload.fields ==> f == "max_speed_mps" || f == "speed_mps";
      assert payload.fields == map[] <==> payload.fields.Keys == {};
    }
  }

  /** Lease validation as a whole. */
  lemma ValidExactly(
    cfg: GateConfig, c: Command, l: Lease, state: Option<RobotState>, revoked: set<string>, now: int)
    ensures ValidateLease(cfg, l, c, state, revoked, now).Valid? <==>
            && LeaseGenuine(cfg, l) && LeaseCurrent(cfg, l, now) && LimitsKept(cfg, l) && SameSubject(c, l)
            && l.leaseId !in revoked
            && (StateNeeded(l) ==> state.Some?)
            && (state.Some? ==> StateGenuine(cfg, l, state.value, now) && StateAllows(l.constraints, state.value))
            && SpeedAllowed(cfg.env.numberValue, l.constraints, c.payload)
  {
    LeaseExactly(cfg, c, l, revoked, now);
    StateExactly(cfg, l, state, now);
    if LimitsKept(cfg, l) { SpeedExactly(cfg.env.numberValue, l.constraints, c.payload); }
  }

  lemma FreshExactly(cfg: GateConfig, rows: set<Row>, c: Command, l: Lease)
    requires c.authenticatedAgentId == Some(c.agentId)
    ensures AuthorizedRows(KeyOf(c), l.nonce) == RowsOfUse(c, l)
    ensures RememberAuthorized(rows, c, l).1.Valid? <==> rows !! RowsOfUse(c, l)
    ensures Contains(rows, c) ==> !(rows !! RowsOfUse(c, l))
  {
    var a, b, d := IdRow(KeyOf(c)), NonceRow(KeyOf(c)), LeaseRow(l.nonce);
    assert RowsOfUse(c, l) == {a, b, d};
  }

  /** Past authentication, the answer hangs on place, rows and lease validation. */
  lemma EvaluateSplit(
    cfg: GateConfig, rows: set<Row>, memory: map<string, RevokedLease>, c: Command, lease: Option<Lease>,
    state: Option<RobotState>, now: int, valid: bool)
    requires lease.Some? ==> valid == ValidateLease(cfg, lease.value, c, state, memory.Keys, now).Valid?
    ensures Evaluate(cfg, rows, memory, c, lease, state, now).1.result.allowed <==>
            && Auth(cfg, c, now).Valid? && lease.Some?
            && c.edgeAgentId == cfg.localEdgeAgentId && lease.value.edgeAgentId == cfg.localEdgeAgentId
            && !Contains(rows, c) && valid && RememberAuthorized(rows, c, lease.value).1.Valid?
    ensures Evaluate(cfg, rows, memory, c, lease, state, now).1.result.allowed ==>
            Evaluate(cfg, rows, memory, c, lease, state, now).0 == RememberAuthorized(rows, c, lease.value).0
  {
  }

  /**
    The gate allows a command exactly when it comes with a lease, command, lease, state and
    payload meet all conditions, and none of the three rows of the use is taken; it then takes
    exactly these three.
   */
  lemma AllowedExactly(
    cfg: GateConfig, rows: set<Row>, memory: map<string, RevokedLease>, c: Command, lease: Option<Lease>,
    state: Option<RobotState>, now: int)
    ensures var (rows', out) := Evaluate(cfg, rows, memory, c, lease, state, now);
      && (out.result.allowed <==>
          && lease.Some? && Authorized(cfg, memory.Keys, c, lease.value, state, now)
          && rows !! RowsOfUse(c, lease.value))
      && (out.result.allowed ==> rows' == rows + RowsOfUse(c, lease.value))
  {
    CommandExactly(cfg, c, now);
    if lease.Some? {
      var valid := ValidateLease(cfg, lease.value, c, state, memory.Keys, now).Valid?;
      EvaluateSplit(cfg, rows, memory, c, lease, state, now, valid);
      ValidExactly(cfg, c, lease.value, state, memory.Keys, now);
      if CommandGenuine(cfg, c, now) { FreshExactly(cfg, rows, c, lease.value); }
    } else {
      EvaluateSplit(cfg, rows, memory, c, lease, state, now, false);
    }
  }
}
