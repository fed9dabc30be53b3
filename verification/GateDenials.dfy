/**
  What a denial of the gate says: its reason is the first condition that fails, its audit event
  tells what was denied to whom, and a fallback is declared exactly where the source promises
  one. Conditions are told from the fields of the messages, as in `GateConditions`.
 */
module GateDenials {
  import opened Core
  import opened Json
  import opened Leases
  import opened Conformance
  import opened Gate
  import opened GateConditions
  import PayloadBudget
  import A = AuditRecord

  // ------------------------------------------------------------- the first condition that fails

  predicate Ahead(timestamp: int, now: int) { timestamp > now + SKEW }

  predicate Old(timestamp: int, now: int, maxAgeSeconds: int) { now - timestamp > 1000 * maxAgeSeconds + SKEW }

  /** The first thing that is wrong with the command itself. */
  ghost predicate CommandExplains(cfg: GateConfig, c: Command, now: int, reason: Reason) {
    if !c.supportedVersion then reason == ProtocolVersionUnsupported
    else if !NonBlank(c.commandId) then reason == CommandIdMissing
    else if !NonBlank(c.commandNonce) then reason == CommandNonceMissing
    else if c.authenticatedAgentId == None then reason == CommandAuthenticatedAgentMissing
    else if c.authenticatedAgentId.value != c.agentId then reason == CommandAuthenticatedAgentMismatch
    else if c.agentId !in cfg.agentKeys then reason == CommandAgentKeyNotTrusted
    else if !PayloadBudget.WithinBudget(PayloadBudget.PythonWeight, c.payload)
    then reason == CommandSignedMaterialTooLarge
    else if !cfg.env.commandSigned(c, cfg.agentKeys[c.agentId]) then reason == CommandSignatureInvalid
    else if Ahead(c.createdAt, now) then reason == CommandNotYetValid
    else Old(c.createdAt, now, cfg.maxCommandAgeSeconds) && reason == CommandStale
  }

  /** Who issued the lease, under which policy, and for what. */
  ghost predicate OriginExplains(cfg: GateConfig, l: Lease, reason: Reason) {
    if !l.supportedVersion then reason == ProtocolVersionUnsupported
    else if l.issuerId !in cfg.trustedIssuerIds then reason == IssuerNotTrusted
    else if l.issuerId !in cfg.issuerKeys then reason == IssuerKeyNotTrusted
    else if !cfg.env.leaseSigned(l, cfg.issuerKeys[l.issuerId]) then reason == InvalidSignature
    else if !NonBlank(l.policyId) || !NonBlank(l.policyDigest) then reason == LeasePolicyProvenanceRequired
    else if l.policyId != cfg.acceptedPolicyId || l.policyDigest !in cfg.acceptedPolicyDigests
    then reason == LeasePolicyNotAccepted
    else !LeaseGenuine(cfg, l) && reason == CapabilityNotGranted
  }

  predicate LifetimeExplains(cfg: GateConfig, l: Lease, now: int, reason: Reason) {
    if Ahead(l.issuedAt, now) then reason == LeaseNotYetValid
    else if l.expiresAt <= now then reason == LeaseExpired
    else if l.expiresAt <= l.issuedAt then reason == LeaseTimeWindowInvalid
    else if l.expiresAt > l.issuedAt + 1000 * cfg.maxLeaseTtlSeconds then reason == LeaseTtlTooLong
    else Old(l.issuedAt, now, cfg.maxLeaseAgeSeconds) && reason == LeaseStale
  }

  predicate LimitsExplain(cfg: GateConfig, l: Lease, reason: Reason) {
    if l.capability !in cfg.requirements || cfg.requirements[l.capability].capability != l.capability
    then reason == ConstraintRequirementsRequired
    else if !NamesRequired(l.constraints, cfg.requirements[l.capability]) then reason == LeaseConstraintsMissing
    else if !LimitsSane(l.constraints) then reason == LeaseConstraintMalformed
    else if l.capability !in cfg.bounds || cfg.bounds[l.capability].capability != l.capability
    then reason == ConstraintBoundsRequired
    else !WithinBound(l.constraints, cfg.bounds[l.capability]) && reason == LeaseConstraintsExceedPolicy
  }

  /** The first thing that is wrong with the lease: origin, lifetime, limits, subject, revocation. */
  ghost predicate LeaseExplains(
    cfg: GateConfig, l: Lease, c: Command, revoked: set<string>, now: int, reason: Reason)
  {
    if !LeaseGenuine(cfg, l) then OriginExplains(cfg, l, reason)
    else if !LeaseCurrent(cfg, l, now) then LifetimeExplains(cfg, l, now, reason)
    else if !LimitsKept(cfg, l) then LimitsExplain(cfg, l, reason)
    else if !SameSubject(c, l) then reason == LeaseContextMismatch
    else l.leaseId in revoked && reason == LeaseRevoked
  }

  /** The first of the four times that is off. */
  predicate StateTimesExplain(x: RobotState, now: int, age: int, reason: Reason) {
    if Ahead(x.createdAt, now) || Old(x.createdAt, now, age) then TimeExplains(x.createdAt, now, reason)
    else if Ahead(x.observedAt, now) || Old(x.observedAt, now, age) then TimeExplains(x.observedAt, now, reason)
    else if Ahead(x.network.observedAt, now) || Old(x.network.observedAt, now, age) then
      TimeExplains(x.network.observedAt, now, reason)
    else
      (Ahead(x.geofence.verifiedAt, now) || Old(x.geofence.verifiedAt, now, age))
      && TimeExplains(x.geofence.verifiedAt, now, reason)
  }

  predicate TimeExplains(timestamp: int, now: int, reason: Reason) {
    reason == if Ahead(timestamp, now) then StateNotYetValid else StateStale
  }

  predicate StateTimesGood(x: RobotState, now: int, age: int) {
    && Recent(x.createdAt, now, age) && Recent(x.observedAt, now, age)
    && Recent(x.network.observedAt, now, age) && Recent(x.geofence.verifiedAt, now, age)
  }

  /** The first thing that is wrong with the state. */
  ghost predicate StateExplains(cfg: GateConfig, l: Lease, x: RobotState, now: int, reason: Reason) {
    var n, k := x.network, l.constraints;
    if x.edgeAgentId !in cfg.stateKeys || !cfg.env.stateSigned(x, cfg.stateKeys[x.edgeAgentId])
    then reason == StateAuthInvalid
    else if !x.supportedVersion then reason == ProtocolVersionUnsupported
    else if !StateTimesGood(x, now, cfg.maxStateAgeSeconds) then StateTimesExplain(x, now, cfg.maxStateAgeSeconds, reason)
    else if x.robotId != l.robotId || x.edgeAgentId != l.edgeAgentId || x.missionId != l.missionId
    then reason == LeaseStateMismatch
    else if k.geofenceId.Some? && (!x.geofence.inside || x.geofence.geofenceId != k.geofenceId.value)
    then reason == GeofenceConstraintViolated
    else if !(0.0 <= n.latencyMsP95 && 0.0 <= n.packetLossPct <= 100.0 && 0.0 <= n.uplinkMbps)
    then reason == NetworkStateMalformed
    else if n.profile.UnknownProfile? then reason == NetworkStateUnknown
    else if n.profile.Partition? || !n.attached then reason == NetworkDetached
    else if k.maxLatencyMsP95.Some? && n.latencyMsP95 > k.maxLatencyMsP95.value then reason == NetworkLatencyTooHigh
    else if k.maxPacketLossPct.Some? && n.packetLossPct > k.maxPacketLossPct.value then reason == NetworkPacketLossTooHigh
    else k.minUplinkMbps.Some? && n.uplinkMbps < k.minUplinkMbps.value && reason == NetworkUplinkTooLow
  }

  /** A payload value that is given, and not as `null`. */
  predicate Given(payload: Json, field: string) {
    payload.Object? && field in payload.fields && !payload.fields[field].Null?
  }

  predicate NoOtherField(payload: Json) {
    payload.Object? && forall f :: f in payload.fields ==> f == "max_speed_mps" || f == "speed_mps"
  }

  /** The field that counts is `max_speed_mps` if it is there at all, else `speed_mps`. */
  function CountedField(payload: Json): string
    requires payload.Object?
  {
    if "max_speed_mps" in payload.fields then "max_speed_mps" else "speed_mps"
  }

  /** The first thing that is wrong with the payload. */
  predicate SpeedExplains(numberValue: string -> real, k: LeaseConstraints, payload: Json, reason: Reason) {
    if !NoOtherField(payload) || (k.maxSpeedMps == None && payload.fields != map[])
    then reason == CommandPayloadSchemaViolation
    else if k.maxSpeedMps == None then false
    else if "max_speed_mps" in payload.fields && "speed_mps" in payload.fields
      && !SameSpeed(numberValue, payload.fields["max_speed_mps"], payload.fields["speed_mps"])
    then reason == CommandSpeedConflict
    else if !Given(payload, CountedField(payload)) then reason == CommandSpeedMissing
    else if !SpeedValue(numberValue, payload.fields[CountedField(payload)]) then reason == CommandSpeedMalformed
    else Exceeds(numberValue, payload.fields[CountedField(payload)], k.maxSpeedMps.value) && reason == CommandSpeedTooHigh
  }

  /** Numbers agree by value, everything else by being the same. */
  predicate SameSpeed(numberValue: string -> real, a: Json, b: Json) {
    a == b || (a.Number? && b.Number? && numberValue(a.text) == numberValue(b.text))
  }

  predicate SpeedValue(numberValue: string -> real, v: Json) { v.Number? && 0.0 <= numberValue(v.text) }

  predicate Exceeds(numberValue: string -> real, v: Json, ceiling: real) { v.Number? && ceiling < numberValue(v.text) }

  /** Between authentication and lease validation: the wrong edge, else a command seen before, else no lease. */
  predicate RoutingExplains(cfg: GateConfig, rows: set<Row>, c: Command, lease: Option<Lease>, reason: Reason) {
    if c.edgeAgentId != cfg.localEdgeAgentId || (lease.Some? && lease.value.edgeAgentId != cfg.localEdgeAgentId)
    then reason == EdgeAgentMismatch
    else if Row(c.agentId, CommandIdKind, c.commandId) in rows || Row(c.agentId, CommandNonceKind, c.commandNonce) in rows
    then reason == CommandReplayed
    else lease == None && reason == NoLease
  }

  /** The lease itself is in order. */
  ghost predicate LeaseAccepted(cfg: GateConfig, revoked: set<string>, c: Command, l: Lease, now: int) {
    && LeaseGenuine(cfg, l) && LeaseCurrent(cfg, l, now) && LimitsKept(cfg, l) && SameSubject(c, l)
    && l.leaseId !in revoked
  }

  ghost predicate StateAccepted(cfg: GateConfig, l: Lease, state: Option<RobotState>, now: int) {
    && (StateNeeded(l) ==> state.Some?)
    && (state.Some? ==> StateGenuine(cfg, l, state.value, now) && StateAllows(l.constraints, state.value))
  }

  /** A verdict of lease validation is explained by the lease, else by the state, else by the payload. */
  ghost predicate Validation(
    cfg: GateConfig, revoked: set<string>, c: Command, l: Lease, state: Option<RobotState>, now: int, reason: Reason)
  {
    if !LeaseAccepted(cfg, revoked, c, l, now) then LeaseExplains(cfg, l, c, revoked, now, reason)
    else if !StateAccepted(cfg, l, state, now) then
      if state == None then reason == CurrentStateRequired else StateExplains(cfg, l, state.value, now, reason)
    else SpeedExplains(cfg.env.numberValue, l.constraints, c.payload, reason)
  }

  /** The reason of a denial is a fact about the inputs, and the checks before it hold. */
  ghost predicate Explains(
    cfg: GateConfig, rows: set<Row>, revoked: set<string>, c: Command, lease: Option<Lease>, state: Option<RobotState>,
    now: int, reason: Reason)
  {
    if !CommandGenuine(cfg, c, now) then CommandExplains(cfg, c, now, reason)
    else if !Routed(cfg, rows, c, lease) then RoutingExplains(cfg, rows, c, lease, reason)
    else if reason == LeaseNonceReplayed then
      Row("__lease_nonce__", LeaseNonceKind, lease.value.nonce) in rows
      && LeaseAccepted(cfg, revoked, c, lease.value, now) && StateAccepted(cfg, lease.value, state, now)
    else Validation(cfg, revoked, c, lease.value, state, now, reason)
  }

  /** The command is local, has a lease for this edge, and was not seen before. */
  predicate Routed(cfg: GateConfig, rows: set<Row>, c: Command, lease: Option<Lease>) {
    && c.edgeAgentId == cfg.localEdgeAgentId && lease.Some? && lease.value.edgeAgentId == cfg.localEdgeAgentId
    && Row(c.agentId, CommandIdKind, c.commandId) !in rows && Row(c.agentId, CommandNonceKind, c.commandNonce) !in rows
  }

  lemma CommandReason(cfg: GateConfig, c: Command, now: int)
    requires Auth(cfg, c, now).Invalid?
    ensures CommandExplains(cfg, c, now, Auth(cfg, c, now).reason)
  {
    NonBlankExactly(c.commandId);
    NonBlankExactly(c.commandNonce);
  }

  lemma LeaseReason(cfg: GateConfig, l: Lease, c: Command, revoked: set<string>, now: int)
    requires AboutLease(cfg, l, c, revoked, now).Invalid?
    ensures LeaseExplains(cfg, l, c, revoked, now, AboutLease(cfg, l, c, revoked, now).reason)
  {
    NonBlankExactly(l.policyId);
    NonBlankExactly(l.policyDigest);
    LimitsExactly(cfg, l);
  }

  lemma StateReason(cfg: GateConfig, l: Lease, x: RobotState, now: int)
    requires AboutState(cfg, l, Some(x), now).Invalid?
    ensures StateExplains(cfg, l, x, now, AboutState(cfg, l, Some(x), now).reason)
  {
  }

  lemma SpeedReason(numberValue: string -> real, k: LeaseConstraints, payload: Json)
    requires LimitsSane(k) && AgainstPayload(numberValue, k, payload).Invalid?
    ensures SpeedExplains(numberValue, k, payload, AgainstPayload(numberValue, k, payload).reason)
  {
    if payload.Object? {
      assert payload.fields.Keys <= {"max_speed_mps", "speed_mps"} <==>
             forall f :: f in payload.fields ==> f == "max_speed_mps" || f == "speed_mps";
    }
  }

  lemma ValidationReason(
    cfg: GateConfig, revoked: set<string>, c: Command, l: Lease, state: Option<RobotState>, now: int)
    requires ValidateLease(cfg, l, c, state, revoked, now).Invalid?
    ensures Validation(cfg, revoked, c, l, state, now, ValidateLease(cfg, l, c, state, revoked, now).reason)
  {
    LeaseExactly(cfg, c, l, revoked, now);
    StateExactly(cfg, l, state, now);
    if AboutLease(cfg, l, c, revoked, now).Invalid? {
      LeaseReason(cfg, l, c, revoked, now);
    } else if AboutState(cfg, l, state, now).Invalid? {
      if state.Some? { StateReason(cfg, l, state.value, now); }
    } else {
      SpeedReason(cfg.env.numberValue, l.constraints, c.payload);
    }
  }

  /** What a verdict of lease validation says. */
  ghost predicate VerdictSays(
    cfg: GateConfig, revoked: set<string>, c: Command, l: Lease, state: Option<RobotState>, now: int, verdict: Verdict)
  {
    if verdict.Valid? then LeaseAccepted(cfg, revoked, c, l, now) && StateAccepted(cfg, l, state, now)
    else Validation(cfg, revoked, c, l, state, now, verdict.reason) && LeaseVerdict(verdict)
  }

  lemma VerdictReason(
    cfg: GateConfig, revoked: set<string>, c: Command, l: Lease, state: Option<RobotState>, now: int, verdict: Verdict)
    requires verdict == ValidateLease(cfg, l, c, state, revoked, now)
    ensures VerdictSays(cfg, revoked, c, l, state, now, verdict)
  {
    ValidationReasons(cfg, l, c, state, revoked, now);
    if verdict.Invalid? {
      ValidationReason(cfg, revoked, c, l, state, now);
    } else {
      ValidExactly(cfg, c, l, state, revoked, now);
    }
  }

  lemma ScreenReason(
    cfg: GateConfig, rows: set<Row>, memory: map<string, RevokedLease>, c: Command, lease: Option<Lease>, auth: Verdict)
    requires auth.Valid? && c.authenticatedAgentId == Some(c.agentId)
    ensures var screened := ScreenAfter(cfg, rows, memory, c, lease, auth);
      && (screened.Some? <==> !Routed(cfg, rows, c, lease))
      && (screened.Some? ==> RoutingExplains(cfg, rows, c, lease, screened.value.result.reason))
  {
  }

  lemma FinishReason(
    cfg: GateConfig, rows: set<Row>, memory: map<string, RevokedLease>, c: Command, l: Lease, verdict: Verdict)
    requires Routed(cfg, rows, c, Some(l)) && c.authenticatedAgentId == Some(c.agentId)
    ensures var out := Finish(cfg, rows, memory, c, l, verdict).1;
      !out.result.allowed ==>
      || (verdict.Invalid? && out.result.reason == verdict.reason)
      || (verdict.Valid? && out.result.reason == LeaseNonceReplayed
          && Row("__lease_nonce__", LeaseNonceKind, l.nonce) in rows)
  {
  }

  lemma FinishExplained(
    cfg: GateConfig, rows: set<Row>, memory: map<string, RevokedLease>, c: Command, l: Lease, state: Option<RobotState>,
    now: int, verdict: Verdict, reason: Reason)
    requires CommandGenuine(cfg, c, now) && Routed(cfg, rows, c, Some(l))
    requires VerdictSays(cfg, memory.Keys, c, l, state, now, verdict)
    requires
      || (verdict.Invalid? && reason == verdict.reason)
      || (verdict.Valid? && reason == LeaseNonceReplayed && Row("__lease_nonce__", LeaseNonceKind, l.nonce) in rows)
    ensures Explains(cfg, rows, memory.Keys, c, Some(l), state, now, reason)
  {
  }

  /** What `evaluate` answers, by its two parts. */
  lemma EvaluateParts(
    cfg: GateConfig, rows: set<Row>, memory: map<string, RevokedLease>, c: Command, lease: Option<Lease>,
    state: Option<RobotState>, now: int, auth: Verdict)
    requires auth == Auth(cfg, c, now)
    ensures var screened := ScreenAfter(cfg, rows, memory, c, lease, auth);
      && (screened.Some? ==> Evaluate(cfg, rows, memory, c, lease, state, now) == (rows, screened.value))
      && (screened.None? ==>
          && lease.Some?
          && Evaluate(cfg, rows, memory, c, lease, state, now) ==
             Finish(cfg, rows, memory, c, lease.value, ValidateLease(cfg, lease.value, c, state, memory.Keys, now)))
  {
  }

  lemma AuthReason(
    cfg: GateConfig, rows: set<Row>, memory: map<string, RevokedLease>, c: Command, lease: Option<Lease>, auth: Verdict)
    requires auth.Invalid?
    ensures var screened := ScreenAfter(cfg, rows, memory, c, lease, auth);
      screened.Some? && screened.value.result.reason == auth.reason
  {
  }

  /**
    Every denial of the gate names the first condition that fails: of those on the command, else on
    where it belongs, else on the lease, the state or the payload, else the taken lease nonce.
   */
  lemma DenialExplained(
    cfg: GateConfig, rows: set<Row>, memory: map<string, RevokedLease>, c: Command, lease: Option<Lease>,
    state: Option<RobotState>, now: int)
    ensures var out := Evaluate(cfg, rows, memory, c, lease, state, now).1;
      !out.result.allowed ==> Explains(cfg, rows, memory.Keys, c, lease, state, now, out.result.reason)
  {
    var auth := Auth(cfg, c, now);
    EvaluateParts(cfg, rows, memory, c, lease, state, now, auth);
    CommandExactly(cfg, c, now);
    if auth.Invalid? {
      AuthReason(cfg, rows, memory, c, lease, auth);
      CommandReason(cfg, c, now);
    } else {
      ScreenReason(cfg, rows, memory, c, lease, auth);
      if Routed(cfg, rows, c, lease) {
        var verdict := ValidateLease(cfg, lease.value, c, state, memory.Keys, now);
        VerdictReason(cfg, memory.Keys, c, lease.value, state, now, verdict);
        FinishReason(cfg, rows, memory, c, lease.value, verdict);
        var out := Finish(cfg, rows, memory, c, lease.value, verdict).1;
        if !out.result.allowed {
          FinishExplained(cfg, rows, memory, c, lease.value, state, now, verdict, out.result.reason);
        }
      }
    }
  }

  // ------------------------------------------------------------- what the audit event says

  /** The event of an answer to an authenticated command names command, agent, robot, mission, lease and reason. */
  predicate EventNames(cfg: GateConfig, c: Command, lease: Option<Lease>, out: Output, e: GateEvent) {
    && e.eventType == (if out.result.allowed then A.CommandAllowed else A.CommandRejected) && e.authorityRelevant
    && e.robotId == Some(c.robotId) && e.missionId == Some(c.missionId) && e.reason == out.result.reason
    && e.actorId == (if out.result.reason.EdgeAgentMismatch? then cfg.localEdgeAgentId else c.edgeAgentId)
    && e.command == Some(CommandKey(c.agentId, c.commandId, c.commandNonce))
    && e.leaseId == (if lease.Some? then Some(lease.value.leaseId) else None)
    && e.leaseNonce == (if out.result.allowed && lease.Some? then Some(lease.value.nonce) else None)
    && (out.result.allowed ==> e.reason == Accepted && e.correlationId == c.correlationId)
  }

  /** The event of a command that was not authenticated claims nothing for it. */
  predicate EventClaimsNothing(out: Output, e: GateEvent) {
    && e.eventType == A.Diagnostic && !e.authorityRelevant && e.actorId == "local_command_gate"
    && e.robotId == None && e.missionId == None && e.command == None && e.leaseId == None && e.leaseNonce == None
    && e.reason == out.result.reason && !out.result.allowed
  }

  predicate Names(cfg: GateConfig, c: Command, lease: Option<Lease>, out: Output) {
    |out.events| >= 1 && EventNames(cfg, c, lease, out, out.events[0])
  }

  predicate ClaimsNothing(out: Output) { |out.events| >= 1 && EventClaimsNothing(out, out.events[0]) }

  lemma RejectNames(
    cfg: GateConfig, memory: map<string, RevokedLease>, c: Command, lease: Option<Lease>, reason: Reason, emit: bool)
    requires c.authenticatedAgentId == Some(c.agentId) && !reason.EdgeAgentMismatch?
    ensures Names(cfg, c, lease, Reject(cfg, memory, c, lease, reason, emit))
  {
  }

  lemma EdgeNames(cfg: GateConfig, c: Command, lease: Option<Lease>)
    requires c.authenticatedAgentId == Some(c.agentId)
    ensures Names(cfg, c, lease, RejectEdge(cfg, c, lease))
  {
  }

  /** The four answers that come before lease validation. */
  predicate ScreenedAs(
    cfg: GateConfig, memory: map<string, RevokedLease>, c: Command, lease: Option<Lease>, auth: Verdict, out: Output)
  {
    if auth.Invalid? then out == RejectUntrusted(c, auth.reason)
    else
      || out == RejectEdge(cfg, c, lease) || out == Reject(cfg, memory, c, lease, CommandReplayed, false)
      || out == Reject(cfg, memory, c, lease, NoLease, false)
  }

  lemma ScreenAnswers(
    cfg: GateConfig, rows: set<Row>, memory: map<string, RevokedLease>, c: Command, lease: Option<Lease>, auth: Verdict)
    ensures var screened := ScreenAfter(cfg, rows, memory, c, lease, auth);
      && (screened.Some? ==> ScreenedAs(cfg, memory, c, lease, auth, screened.value))
      && (screened.None? ==> auth.Valid? && lease.Some?)
  {
  }

  lemma AnswersName(
    cfg: GateConfig, memory: map<string, RevokedLease>, c: Command, lease: Option<Lease>, auth: Verdict, out: Output)
    requires auth.Valid? ==> c.authenticatedAgentId == Some(c.agentId)
    requires ScreenedAs(cfg, memory, c, lease, auth, out)
    ensures if auth.Valid? then Names(cfg, c, lease, out) else ClaimsNothing(out)
  {
    if auth.Valid? {
      EdgeNames(cfg, c, lease);
      RejectNames(cfg, memory, c, lease, CommandReplayed, false);
      RejectNames(cfg, memory, c, lease, NoLease, false);
    }
  }

  lemma FinishNames(
    cfg: GateConfig, rows: set<Row>, memory: map<string, RevokedLease>, c: Command, l: Lease, verdict: Verdict)
    requires c.authenticatedAgentId == Some(c.agentId) && LeaseVerdict(verdict)
    ensures Names(cfg, c, Some(l), Finish(cfg, rows, memory, c, l, verdict).1)
  {
    RejectNames(cfg, memory, c, Some(l), CommandReplayed, false);
    RejectNames(cfg, memory, c, Some(l), LeaseNonceReplayed, false);
    if verdict.Invalid? { RejectNames(cfg, memory, c, Some(l), verdict.reason, true); }
  }

  /**
    The first audit event of an evaluation tells what was answered to whom: for an authenticated
    command its key, robot, mission, lease and reason, with the lease nonce exactly when it was
    allowed; for any other command nothing but the reason.
   */
  lemma EventTells(
    cfg: GateConfig, rows: set<Row>, memory: map<string, RevokedLease>, c: Command, lease: Option<Lease>,
    state: Option<RobotState>, now: int)
    ensures var out := Evaluate(cfg, rows, memory, c, lease, state, now).1;
      if CommandGenuine(cfg, c, now) then Names(cfg, c, lease, out) else ClaimsNothing(out)
  {
    var auth := Auth(cfg, c, now);
    EvaluateParts(cfg, rows, memory, c, lease, state, now, auth);
    CommandExactly(cfg, c, now);
    ScreenAnswers(cfg, rows, memory, c, lease, auth);
    if ScreenAfter(cfg, rows, memory, c, lease, auth).Some? {
      AnswersName(cfg, memory, c, lease, auth, ScreenAfter(cfg, rows, memory, c, lease, auth).value);
    } else {
      ValidationReasons(cfg, lease.value, c, state, memory.Keys, now);
      FinishNames(cfg, rows, memory, c, lease.value, ValidateLease(cfg, lease.value, c, state, memory.Keys, now));
    }
  }

  // ------------------------------------------------------------- where a fallback is declared

  /** The state denials of the source that call for a fallback. */
  predicate CallsForFallback(reason: Reason) {
    || reason.NetworkLatencyTooHigh? || reason.NetworkPacketLossTooHigh? || reason.NetworkUplinkTooLow?
    || reason.NetworkDetached? || reason.NetworkStateUnknown? || reason.GeofenceConstraintViolated?
  }

  /** The action for a trigger: the configured one, else the source's table. */
  function ActionFor(cfg: GateConfig, trigger: Reason): FallbackAction {
    if trigger in cfg.fallbackActions then cfg.fallbackActions[trigger]
    else if trigger.GeofenceConstraintViolated? then HoldPosition
    else if CallsForFallback(trigger) || trigger.NetworkProfileRevoke? || trigger.NetworkDegradedRevoke?
    then CrawlToSafeZone
    else LocalAutonomyOnly
  }

  /** The gate remembers a revocation of this very lease, and the command is about it. */
  predicate Recalls(memory: map<string, RevokedLease>, c: Command, l: Lease) {
    && l.leaseId in memory
    && var r := memory[l.leaseId];
      && r.issuerId == l.issuerId && r.agentId == l.agentId && r.edgeAgentId == l.edgeAgentId && r.robotId == l.robotId
      && r.missionId == l.missionId && r.capability == l.capability
      && SameSubject(c, l)
  }

  /** What a declaration made on a denial says. */
  function DeclarationFor(cfg: GateConfig, memory: map<string, RevokedLease>, c: Command, l: Lease, reason: Reason)
    : Declaration
  {
    if reason.LeaseRevoked? && l.leaseId in memory then
      var r := memory[l.leaseId];
      Declaration(r.correlationId, c.robotId, c.edgeAgentId, c.missionId, reason, ActionFor(cfg, r.reason), c.edgeAgentId,
                  Some(l.leaseId), Some(r.revocationId))
    else
      Declaration(c.correlationId, c.robotId, c.edgeAgentId, c.missionId, reason, ActionFor(cfg, reason), c.edgeAgentId,
                  Some(l.leaseId), None)
  }

  lemma ActionExactly(cfg: GateConfig, trigger: Reason)
    ensures LocalFallback(cfg, trigger) == ActionFor(cfg, trigger)
  {
  }

  predicate DeclaresNothing(out: Output) {
    out.declared == [] && out.result.declaration == None && out.result.fallbackAction == None && |out.events| == 1
  }

  /** The denial and, right after it, the record of the fallback. */
  predicate DeclaresOnce(out: Output, d: Declaration) {
    && out.declared == [d] && out.result.declaration == Some(d) && out.result.fallbackAction == Some(d.action)
    && |out.events| == 2 && out.events[1].eventType.FallbackDeclared? && out.events[1].actorId == d.declaredBy
    && out.events[1].robotId == Some(d.robotId) && out.events[1].missionId == Some(d.missionId)
    && out.events[1].correlationId == d.correlationId && out.events[1].reason == d.trigger
    && out.events[1].leaseId == d.leaseId && out.events[1].revocationId == d.revocationId
    && out.events[1].fallbackAction == Some(d.action)
  }

  /** A denial that calls for a fallback, given what the gate remembers. */
  predicate DenialDeclares(memory: map<string, RevokedLease>, c: Command, l: Lease, reason: Reason) {
    CallsForFallback(reason) || (reason.LeaseRevoked? && Recalls(memory, c, l))
  }

  lemma RejectDeclares(
    cfg: GateConfig, memory: map<string, RevokedLease>, c: Command, lease: Option<Lease>, reason: Reason, emit: bool)
    ensures var out := Reject(cfg, memory, c, lease, reason, emit);
      && out.result.reason == reason
      && (lease.Some? && emit && DenialDeclares(memory, c, lease.value, reason) ==>
          DeclaresOnce(out, DeclarationFor(cfg, memory, c, lease.value, reason)))
      && (!emit || (lease.Some? && !DenialDeclares(memory, c, lease.value, reason)) ==> DeclaresNothing(out))
  {
    ActionExactly(cfg, reason);
    if lease.Some? && lease.value.leaseId in memory { ActionExactly(cfg, memory[lease.value.leaseId].reason); }
  }

  /** The denial consumed the command's two rows. */
  predicate Consumed(rows: set<Row>, rows': set<Row>, c: Command) {
    && rows' == rows + {Row(c.agentId, CommandIdKind, c.commandId), Row(c.agentId, CommandNonceKind, c.commandNonce)}
    && Row(c.agentId, CommandIdKind, c.commandId) !in rows && Row(c.agentId, CommandNonceKind, c.commandNonce) !in rows
  }

  /** The promise on fallbacks, for one answer. */
  predicate DeclaresAsPromised(
    cfg: GateConfig, rows: set<Row>, rows': set<Row>, memory: map<string, RevokedLease>, c: Command, lease: Option<Lease>,
    out: Output)
  {
    if lease.Some? && DenialDeclares(memory, c, lease.value, out.result.reason)
    then !out.result.allowed && Consumed(rows, rows', c)
         && DeclaresOnce(out, DeclarationFor(cfg, memory, c, lease.value, out.result.reason))
    else DeclaresNothing(out) && !CallsForFallback(out.result.reason)
  }

  lemma FinishDeclares(
    cfg: GateConfig, rows: set<Row>, memory: map<string, RevokedLease>, c: Command, l: Lease, verdict: Verdict)
    requires !Contains(rows, c) && c.authenticatedAgentId == Some(c.agentId)
    ensures var (rows', out) := Finish(cfg, rows, memory, c, l, verdict);
      DeclaresAsPromised(cfg, rows, rows', memory, c, Some(l), out)
  {
    if verdict.Invalid? {
      RejectDeclares(cfg, memory, c, Some(l), verdict.reason, true);
    } else {
      RejectDeclares(cfg, memory, c, Some(l), LeaseNonceReplayed, false);
    }
  }

  /** No reason for which a fallback is declared. */
  predicate Quiet(reason: Reason) { !CallsForFallback(reason) && !reason.LeaseRevoked? }

  lemma ScreenDeclares(
    cfg: GateConfig, rows: set<Row>, memory: map<string, RevokedLease>, c: Command, lease: Option<Lease>, auth: Verdict)
    requires auth.Invalid? ==> Quiet(auth.reason)
    ensures var screened := ScreenAfter(cfg, rows, memory, c, lease, auth);
      && (screened.Some? ==> DeclaresAsPromised(cfg, rows, rows, memory, c, lease, screened.value))
      && (screened.None? ==> lease.Some? && !Contains(rows, c) && auth.Valid?)
  {
    RejectDeclares(cfg, memory, c, lease, CommandReplayed, false);
    RejectDeclares(cfg, memory, c, lease, NoLease, false);
  }

  lemma AuthIsQuiet(cfg: GateConfig, c: Command, now: int)
    ensures Auth(cfg, c, now).Invalid? ==> Quiet(Auth(cfg, c, now).reason)
  {
  }

  /**
    Where a fallback is declared: exactly on a denial for one of the six network and geofence
    reasons, or for a revoked lease of which the gate remembers the matching revocation. Such a
    denial has consumed the command, and its one declaration names the command's robot, edge and
    mission, the lease, the trigger, the action for it and, if any, the revocation.
   */
  lemma DeclaredExactly(
    cfg: GateConfig, rows: set<Row>, memory: map<string, RevokedLease>, c: Command, lease: Option<Lease>,
    state: Option<RobotState>, now: int)
    ensures var (rows', out) := Evaluate(cfg, rows, memory, c, lease, state, now);
      DeclaresAsPromised(cfg, rows, rows', memory, c, lease, out)
  {
    var auth := Auth(cfg, c, now);
    EvaluateParts(cfg, rows, memory, c, lease, state, now, auth);
    AuthIsQuiet(cfg, c, now);
    CommandExactly(cfg, c, now);
    ScreenDeclares(cfg, rows, memory, c, lease, auth);
    if ScreenAfter(cfg, rows, memory, c, lease, auth).None? {
      FinishDeclares(cfg, rows, memory, c, lease.value,
                     ValidateLease(cfg, lease.value, c, state, memory.Keys, now));
    }
  }
}
