/**
  The two verifiers compared on all inputs: under matched configuration, whatever the Rust
  verifier allows passes the Python gate's checks, up to conditions only Python looks at
  (its own signatures, the creation time of the state message, blankness in Python's sense).
 */
module Refinement {
  import opened Core
  import opened Leases
  import opened Conformance
  import opened Gate
  import R = EdgeVerifier
  import Laws = EdgeVerifierLaws
  import PayloadBudget
  import MarkerProtocol
  import opened GateSamples
  import EdgeSamples

  // ------------------------------------------------------------- translation

  function Opt<T>(m: R.Maybe<T>): Option<T> {
    if m.Just? then Some(m.value) else None
  }

  function CapabilityOf(text: string): Capability {
    if text == "remote_assist" then RemoteAssist
    else if text == "mission_continue" then MissionContinue
    else if text == "autonomy_escalation" then AutonomyEscalation
    else OtherCapability(text)
  }

  function FallbackOf(text: string): FallbackAction {
    if text == "crawl_to_safe_zone" then CrawlToSafeZone
    else if text == "hold_position" then HoldPosition
    else if text == "revoke_remote_assist" then RevokeRemoteAssist
    else if text == "escalate_to_human" then EscalateToHuman
    else LocalAutonomyOnly
  }

  function CapabilityText(c: Capability): string {
    match c
    case RemoteAssist => "remote_assist"
    case MissionContinue => "mission_continue"
    case AutonomyEscalation => "autonomy_escalation"
    case OtherCapability(text) => text
  }

  function FallbackText(a: FallbackAction): string {
    match a
    case LocalAutonomyOnly => "local_autonomy_only"
    case CrawlToSafeZone => "crawl_to_safe_zone"
    case HoldPosition => "hold_position"
    case RevokeRemoteAssist => "revoke_remote_assist"
    case EscalateToHuman => "escalate_to_human"
  }

  /** The translation is the wire format: a value read back from its wire text is itself. */
  lemma WireTextsTranslate(c: Capability, a: FallbackAction, text: string)
    ensures CapabilityText(CapabilityOf(text)) == text && FallbackOf(FallbackText(a)) == a
    ensures !c.OtherCapability? ==> CapabilityOf(CapabilityText(c)) == c
  {
  }

  function ProfileOf(p: R.NetworkProfile): NetworkProfile {
    match p
    case UnknownProfile => UnknownProfile
    case Normal => Normal
    case DegradedTeleop => DegradedTeleop
    case UplinkBad => UplinkBad
    case Partition => Partition
  }

  function ConstraintsOf(c: R.Constraints): LeaseConstraints {
    LeaseConstraints(
      Opt(c.geofenceId), Opt(c.maxLatencyMsP95), Opt(c.maxPacketLossPct), Opt(c.minUplinkMbps),
      if c.fallbackOnDegrade.Just? then FallbackOf(c.fallbackOnDegrade.value) else LocalAutonomyOnly,
      c.fallbackOnDegrade.Just?, Opt(c.maxSpeedMps))
  }

  function LeaseOf(l: R.Claims): Lease {
    Lease(l.protocolVersion == R.SUPPORTED_PROTOCOL_VERSION, l.leaseId, l.issuerId, l.agentId, l.edgeAgentId, l.robotId,
          l.missionId, CapabilityOf(l.capability), ConstraintsOf(l.constraints), l.issuedAt as int, l.expiresAt as int,
          l.nonce, l.policyId, l.policyDigest)
  }

  function CommandOf(c: R.EdgeCommand): Command {
    Command(c.protocolVersion == R.SUPPORTED_PROTOCOL_VERSION, c.messageId, c.correlationId, c.createdAt as int,
            c.commandId, c.agentId, Some(c.authenticatedAgentId), c.edgeAgentId, c.robotId, c.missionId,
            CapabilityOf(c.capability), c.commandNonce, c.payload)
  }

  /** What Python's state message has and the local context has not. */
  datatype Extra = Extra(messageId: string, createdAt: int, humanOperatorAvailable: bool)

  function StateOf(x: R.LocalContext, extra: Extra): RobotState {
    var n := x.network;
    RobotState(
      extra.messageId, true, extra.createdAt, x.observedAt as int, x.robotId, x.edgeAgentId, x.missionId,
      NetworkState(ProfileOf(n.profile), n.attached, n.latencyMsP95, n.packetLossPct, n.uplinkMbps, n.observedAt as int),
      GeofenceState(x.geofence.geofenceId, x.geofence.inside, x.geofence.verifiedAt as int),
      extra.humanOperatorAvailable)
  }

  function RequirementOf(r: R.Requirement): Requirement {
    Requirement(CapabilityOf(r.capability), r.requireGeofenceId, r.requireNetworkThresholds, r.requireFallbackOnDegrade,
                r.requireMaxSpeedMps)
  }

  function BoundsOf(b: R.Bounds): Bounds {
    Bounds(CapabilityOf(b.capability), Opt(b.geofenceId), Opt(b.maxLatencyMsP95), Opt(b.maxPacketLossPct),
           Opt(b.minUplinkMbps), if b.fallbackOnDegrade.Just? then Some(FallbackOf(b.fallbackOnDegrade.value)) else None,
           Opt(b.maxSpeedMps))
  }

  // ------------------------------------------------------------- matched configuration

  ghost predicate CapabilityMatched(cfg: GateConfig, t: R.Trusted, text: string) {
    var capability := CapabilityOf(text);
    var r := R.FindRequirement(t.requirements, text);
    var b := R.FindBounds(t.bounds, text);
    && capability in cfg.acceptedCapabilities
    && (r.Just? ==> capability in cfg.requirements && cfg.requirements[capability] == RequirementOf(r.value))
    && (b.Just? ==> capability in cfg.bounds && cfg.bounds[capability] == BoundsOf(b.value))
  }

  ghost predicate ScopeMatched(cfg: GateConfig, s: R.IssuerScope) {
    s.issuerId in cfg.issuerScopes && forall c :: c in s.capabilities ==> CapabilityOf(c) in cfg.issuerScopes[s.issuerId]
  }

  /** The verifier trusts no more than the gate does: names, policy, limits and ages. */
  ghost predicate Matched(env: R.Environment, t: R.Trusted, cfg: GateConfig) {
    && ValidConfig(cfg)
    && t.stateEdgeIds == [cfg.localEdgeAgentId] && cfg.localEdgeAgentId in cfg.stateKeys
    && (forall id :: id in t.issuerIds ==> id in cfg.trustedIssuerIds && id in cfg.issuerKeys)
    && (forall id :: id in t.commandAgentIds ==> id in cfg.agentKeys)
    && t.policyId == cfg.acceptedPolicyId && t.policyDigest in cfg.acceptedPolicyDigests
    && (forall text :: text in t.acceptedCapabilities ==> CapabilityMatched(cfg, t, text))
    && (forall s :: s in t.issuerScopes ==> ScopeMatched(cfg, s))
    && t.maxLeaseTtlMs as int <= Ms(cfg.maxLeaseTtlSeconds) && t.maxLeaseAgeMs as int <= Ms(cfg.maxLeaseAgeSeconds)
    && t.maxStateAgeMs as int <= Ms(cfg.maxStateAgeSeconds) && t.maxCommandAgeMs as int <= Ms(cfg.maxCommandAgeSeconds)
    && env.numberValue == cfg.env.numberValue
  }

  predicate KnowsRevoked(t: R.Trusted, revoked: set<string>) {
    forall id :: id in revoked ==> id in t.revocations
  }

  // ------------------------------------------------------------- the stages

  ghost function OverBudget(i: R.Input): bool {
    !PayloadBudget.WithinBudget(PayloadBudget.RustWeight, i.command.payload)
  }

  lemma AllowedStages(env: R.Environment, i: R.Input, t: R.Trusted)
    requires R.Screened(env, i, t) == R.Allow
    ensures R.Admission(env, i, t, OverBudget(i)) == R.Pass
    ensures R.LeaseChecks(env, i, t) == R.Pass
    ensures R.StateChecks(env, i, t) == R.Pass
    ensures !R.HardDenial(i.context.network) && !R.ThresholdDenial(i.lease.claims.constraints, i.context.network)
    ensures R.PayloadCheck(env.numberValue, i.lease.claims.constraints, i.command.payload) == R.Pass
  {
  }

  /** What an admitted input is known to be. */
  ghost predicate Admitted(env: R.Environment, i: R.Input, t: R.Trusted) {
    && !R.EnvelopeViolated(i) && !R.TimesMalformed(i, t) && !R.MetricsMalformed(i, t) && !OverBudget(i)
    && R.CommandAuth(env, i, t) == R.Pass && R.PolicyDigest(t, i.lease.claims) == R.Pass
  }

  lemma AdmissionGives(env: R.Environment, i: R.Input, t: R.Trusted)
    requires R.Admission(env, i, t, OverBudget(i)) == R.Pass
    ensures Admitted(env, i, t)
  {
  }

  /**
    An admitted command passes the gate's authentication exactly when Python finds its id and
    nonce nonblank (Rust's `trim` keeps U+001C to U+001F, Python's `strip` does not) and
    accepts its signature.
   */
  lemma AuthRefined(env: R.Environment, i: R.Input, t: R.Trusted, cfg: GateConfig)
    requires Matched(env, t, cfg) && Admitted(env, i, t)
    ensures var c := CommandOf(i.command);
      && c.agentId in cfg.agentKeys
      && (Auth(cfg, c, t.now as int).Valid? <==>
          !Blank(c.commandId) && !Blank(c.commandNonce) && cfg.env.commandSigned(c, cfg.agentKeys[c.agentId]))
  {
    Laws.TimesExact(i, t);
    PayloadBudget.RustBudgetWithinPython(i.command.payload);
    assert CommandTime(cfg, CommandOf(i.command), t.now as int).Valid?;
  }

  lemma TimeRefined(i: R.Input, t: R.Trusted, maxAgeSeconds: int, maxTtlSeconds: int)
    requires !R.TimesMalformed(i, t) && R.LeaseTime(i.lease.claims, t) == R.Pass
    requires t.maxLeaseTtlMs as int <= Ms(maxTtlSeconds) && t.maxLeaseAgeMs as int <= Ms(maxAgeSeconds)
    ensures TimeViolation(LeaseOf(i.lease.claims), t.now as int, maxAgeSeconds, maxTtlSeconds).Valid?
  {
    Laws.TimesExact(i, t);
  }

  lemma LimitsRefined(env: R.Environment, i: R.Input, t: R.Trusted, cfg: GateConfig)
    requires Matched(env, t, cfg) && R.Limits(i.lease.claims, t) == R.Pass
    requires i.lease.claims.capability in t.acceptedCapabilities
    ensures RequirementViolation(LeaseOf(i.lease.claims), cfg.requirements).Valid?
    ensures BoundViolation(LeaseOf(i.lease.claims), cfg.bounds).Valid?
  {
    assert CapabilityMatched(cfg, t, i.lease.claims.capability);
  }

  lemma ScopeRefined(env: R.Environment, l: R.Claims, t: R.Trusted, cfg: GateConfig)
    requires Matched(env, t, cfg) && R.CapabilityAllowed(l, t) && R.PolicyDigest(t, l) == R.Pass
    ensures ScopeViolation(cfg, LeaseOf(l)).Valid? && ProvenanceViolation(cfg, LeaseOf(l)).Valid?
  {
    assert CapabilityMatched(cfg, t, l.capability);
    var k :| 0 <= k < |t.issuerScopes| && t.issuerScopes[k].issuerId == l.issuerId
      && l.capability in t.issuerScopes[k].capabilities;
    assert t.issuerScopes[k] in t.issuerScopes;
  }

  /** What the lease checks establish. */
  ghost predicate LeaseChecked(i: R.Input, t: R.Trusted) {
    var l := i.lease.claims;
    && l.issuerId in t.issuerIds && R.CapabilityAllowed(l, t) && R.LeaseTime(l, t) == R.Pass
    && l.leaseId !in t.revocations && R.Context(i) == R.Pass && R.Limits(l, t) == R.Pass
  }

  lemma LeaseChecksGive(env: R.Environment, i: R.Input, t: R.Trusted)
    requires R.LeaseChecks(env, i, t) == R.Pass
    ensures LeaseChecked(i, t)
  {
  }

  lemma LeaseShapeRefined(i: R.Input, t: R.Trusted)
    requires !R.EnvelopeViolated(i) && !R.MetricsMalformed(i, t) && R.Context(i) == R.Pass
    ensures var lease, c := LeaseOf(i.lease.claims), CommandOf(i.command);
      && lease.supportedVersion && ConstraintsWellFormed(lease.constraints)
      && MatchesContext(lease, c.agentId, c.edgeAgentId, c.robotId, c.missionId, c.capability)
  {
  }

  /** A lease past the verifier's lease checks passes the gate's, exactly when Python accepts its signature. */
  lemma LeaseRefined(env: R.Environment, i: R.Input, t: R.Trusted, cfg: GateConfig, revoked: set<string>)
    requires Matched(env, t, cfg) && Admitted(env, i, t) && LeaseChecked(i, t) && KnowsRevoked(t, revoked)
    ensures var lease := LeaseOf(i.lease.claims);
      && lease.issuerId in cfg.issuerKeys
      && (AboutLease(cfg, lease, CommandOf(i.command), revoked, t.now as int).Valid? <==>
          cfg.env.leaseSigned(lease, cfg.issuerKeys[lease.issuerId]))
  {
    TimeRefined(i, t, cfg.maxLeaseAgeSeconds, cfg.maxLeaseTtlSeconds);
    LimitsRefined(env, i, t, cfg);
    ScopeRefined(env, i.lease.claims, t, cfg);
    LeaseShapeRefined(i, t);
  }

  lemma AgainstStateRefined(i: R.Input, t: R.Trusted, extra: Extra)
    requires !R.MetricsMalformed(i, t) && R.Context(i) == R.Pass
    requires !R.GeofenceViolated(i.lease.claims.constraints, i.context.geofence)
    requires !R.HardDenial(i.context.network) && !R.ThresholdDenial(i.lease.claims.constraints, i.context.network)
    ensures AgainstState(LeaseOf(i.lease.claims), StateOf(i.context, extra)).Valid?
  {
  }

  lemma StateTimeRefined(i: R.Input, t: R.Trusted, extra: Extra, maxAgeSeconds: int)
    requires !R.TimesMalformed(i, t) && R.StateTime(i.context, t) == R.Pass
    requires t.maxStateAgeMs as int <= Ms(maxAgeSeconds)
    ensures StateTimeViolation(StateOf(i.context, extra), t.now as int, maxAgeSeconds).Valid? <==>
            TimestampViolation(extra.createdAt, t.now as int, maxAgeSeconds).Valid?
  {
    Laws.TimesExact(i, t);
  }

  /** The local state passes the gate's state checks exactly when Python accepts its signature and creation time. */
  lemma StateRefined(env: R.Environment, i: R.Input, t: R.Trusted, cfg: GateConfig, extra: Extra)
    requires Matched(env, t, cfg) && Admitted(env, i, t)
    requires R.Context(i) == R.Pass && R.StateChecks(env, i, t) == R.Pass
    requires !R.HardDenial(i.context.network) && !R.ThresholdDenial(i.lease.claims.constraints, i.context.network)
    ensures var state := StateOf(i.context, extra);
      && state.edgeAgentId == cfg.localEdgeAgentId
      && (AboutState(cfg, LeaseOf(i.lease.claims), Some(state), t.now as int).Valid? <==>
          && StateAuthentic(cfg, state)
          && TimestampViolation(extra.createdAt, t.now as int, cfg.maxStateAgeSeconds).Valid?)
  {
    AgainstStateRefined(i, t, extra);
    StateTimeRefined(i, t, extra, cfg.maxStateAgeSeconds);
  }

  lemma PayloadRefined(numberValue: string -> real, i: R.Input, t: R.Trusted)
    requires !R.MetricsMalformed(i, t)
    requires R.PayloadCheck(numberValue, i.lease.claims.constraints, i.command.payload) == R.Pass
    ensures AgainstPayload(numberValue, LeaseOf(i.lease.claims).constraints, i.command.payload).Valid?
  {
    var payload := i.command.payload;
    assert R.MAX_SPEED_FIELD == MAX_SPEED_FIELD && R.SPEED_FIELD == SPEED_FIELD;
    if i.lease.claims.constraints.maxSpeedMps.Nothing? {
      assert payload.fields.Keys == {};
      assert payload.fields == map[];
    }
  }

  // ------------------------------------------------------------- the refinement

  /** What only the Python side looks at. */
  ghost predicate PythonOnly(cfg: GateConfig, i: R.Input, t: R.Trusted, extra: Extra) {
    var c, lease := CommandOf(i.command), LeaseOf(i.lease.claims);
    && !Blank(c.commandId) && !Blank(c.commandNonce)
    && c.agentId in cfg.agentKeys && cfg.env.commandSigned(c, cfg.agentKeys[c.agentId])
    && lease.issuerId in cfg.issuerKeys && cfg.env.leaseSigned(lease, cfg.issuerKeys[lease.issuerId])
    && StateAuthentic(cfg, StateOf(i.context, extra))
    && TimestampViolation(extra.createdAt, t.now as int, cfg.maxStateAgeSeconds).Valid?
  }

  /**
    Rust refines Python. Whatever the Rust checks allow is addressed to the local edge and
    passes authentication and lease validation in the gate if and only if the conditions that
    only Python looks at hold.
   */
  lemma RustAllowRefinesPython(
    env: R.Environment, i: R.Input, t: R.Trusted, cfg: GateConfig, revoked: set<string>, extra: Extra)
    requires Matched(env, t, cfg) && KnowsRevoked(t, revoked) && R.Screened(env, i, t) == R.Allow
    ensures var c, lease, state := CommandOf(i.command), LeaseOf(i.lease.claims), StateOf(i.context, extra);
      && c.edgeAgentId == cfg.localEdgeAgentId && lease.edgeAgentId == cfg.localEdgeAgentId
      && (PythonOnly(cfg, i, t, extra) <==>
          && Auth(cfg, c, t.now as int).Valid?
          && ValidateLease(cfg, lease, c, Some(state), revoked, t.now as int).Valid?)
  {
    AllowedStages(env, i, t);
    AdmissionGives(env, i, t);
    LeaseChecksGive(env, i, t);
    AuthRefined(env, i, t, cfg);
    LeaseRefined(env, i, t, cfg, revoked);
    StateRefined(env, i, t, cfg, extra);
    PayloadRefined(env.numberValue, i, t);
  }

  predicate ThresholdReason(reason: Reason) {
    reason.NetworkLatencyTooHigh? || reason.NetworkPacketLossTooHigh? || reason.NetworkUplinkTooLow?
  }

  lemma AgainstStateDegraded(i: R.Input, t: R.Trusted, extra: Extra)
    requires !R.MetricsMalformed(i, t) && R.Context(i) == R.Pass
    requires !R.GeofenceViolated(i.lease.claims.constraints, i.context.geofence)
    requires !R.HardDenial(i.context.network) && R.ThresholdDenial(i.lease.claims.constraints, i.context.network)
    ensures var verdict := AgainstState(LeaseOf(i.lease.claims), StateOf(i.context, extra));
      verdict.Invalid? && ThresholdReason(verdict.reason)
  {
  }

  lemma StateDegraded(env: R.Environment, i: R.Input, t: R.Trusted, cfg: GateConfig, extra: Extra)
    requires Matched(env, t, cfg) && Admitted(env, i, t)
    requires R.Context(i) == R.Pass && R.StateChecks(env, i, t) == R.Pass
    requires !R.HardDenial(i.context.network) && R.ThresholdDenial(i.lease.claims.constraints, i.context.network)
    requires StateAuthentic(cfg, StateOf(i.context, extra))
    requires TimestampViolation(extra.createdAt, t.now as int, cfg.maxStateAgeSeconds).Valid?
    ensures var verdict := AboutState(cfg, LeaseOf(i.lease.claims), Some(StateOf(i.context, extra)), t.now as int);
      verdict.Invalid? && ThresholdReason(verdict.reason)
  {
    AgainstStateDegraded(i, t, extra);
    StateTimeRefined(i, t, extra, cfg.maxStateAgeSeconds);
  }

  lemma DegradedStages(env: R.Environment, i: R.Input, t: R.Trusted)
    requires R.Screened(env, i, t) == R.Degrade
    ensures Admitted(env, i, t) && LeaseChecked(i, t) && R.StateChecks(env, i, t) == R.Pass
    ensures !R.HardDenial(i.context.network) && R.ThresholdDenial(i.lease.claims.constraints, i.context.network)
  {
    Laws.OpenPassed(env, i, t, OverBudget(i));
    Laws.DegradeExactly(env, i, t, OverBudget(i));
    AdmissionGives(env, i, t);
    LeaseChecksGive(env, i, t);
  }

  /**
    What Rust degrades, Python refuses: the same input passes Python's authentication and is
    then denied by lease validation for the network threshold it exceeds.
   */
  lemma DegradeIsDenied(
    env: R.Environment, i: R.Input, t: R.Trusted, cfg: GateConfig, revoked: set<string>, extra: Extra)
    requires Matched(env, t, cfg) && KnowsRevoked(t, revoked) && R.Screened(env, i, t) == R.Degrade
    requires PythonOnly(cfg, i, t, extra)
    ensures var c, lease, state := CommandOf(i.command), LeaseOf(i.lease.claims), StateOf(i.context, extra);
      var verdict := ValidateLease(cfg, lease, c, Some(state), revoked, t.now as int);
      Auth(cfg, c, t.now as int).Valid? && verdict.Invalid? && ThresholdReason(verdict.reason)
  {
    DegradedStages(env, i, t);
    AuthRefined(env, i, t, cfg);
    LeaseRefined(env, i, t, cfg, revoked);
    StateDegraded(env, i, t, cfg, extra);
  }

  // ------------------------------------------------------------- inputs that reach the theorems

  /** U+001C is blank for Python only, so Rust allows a command id of it and Python finds no id at all. */
  lemma SeparatorIdIsMissingInPython(env: R.Environment, i: R.Input, t: R.Trusted)
    requires env == EdgeSamples.SampleEnvironment(env.numberValue) && t == EdgeSamples.SampleTrusted("a")
    requires i == EdgeSamples.SampleInput("a", "\U{001C}", "u", "x")
    ensures !MarkerProtocol.RustBlank("\U{001C}") && Blank("\U{001C}")
    ensures R.Screened(env, i, t) == R.Allow
    ensures Auth(SampleGate(), CommandOf(i.command), t.now as int) == Invalid(CommandIdMissing)
  {
    assert !MarkerProtocol.RustSpace("\U{001C}"[0]);
    EdgeSamples.SampleIsAllowedAs(env, i, t, "a", "\U{001C}", "u", "x");
  }

  /** Matched configurations exist: one capability, one issuer, one agent and one edge will do. */
  lemma MatchedIsPossible(env: R.Environment)
    requires env.numberValue == SampleGate().env.numberValue
    ensures Matched(env, EdgeSamples.SampleTrusted("a"), SampleGate())
  {
    var cfg, t := SampleGate(), EdgeSamples.SampleTrusted("a");
    SampleGateIsValid();
    assert CapabilityMatched(cfg, t, "remote_assist");
  }

  /** The refinement is about something: an input that the Rust checks allow and that meets all its premises. */
  lemma RefinementIsInhabited()
    ensures exists env, i: R.Input, t, cfg, extra ::
      && Matched(env, t, cfg) && KnowsRevoked(t, {}) && R.Screened(env, i, t) == R.Allow
      && PythonOnly(cfg, i, t, extra)
  {
    var cfg, t := SampleGate(), EdgeSamples.SampleTrusted("a");
    var env := EdgeSamples.SampleEnvironment(cfg.env.numberValue);
    var i := EdgeSamples.SampleInput("a", "q", "u", "x");
    var extra := Extra("m", 0, true);
    MatchedIsPossible(env);
    EdgeSamples.SampleIsAllowed(cfg.env.numberValue, "a", "q", "u", "x");
    SampleMeetsPythonOnly(i, t, extra);
    assert Matched(env, t, cfg) && KnowsRevoked(t, {}) && R.Screened(env, i, t) == R.Allow
      && PythonOnly(cfg, i, t, extra);
  }

  lemma SampleMeetsPythonOnly(i: R.Input, t: R.Trusted, extra: Extra)
    requires i == EdgeSamples.SampleInput("a", "q", "u", "x") && t.now == 0 && extra.createdAt == 0
    ensures PythonOnly(SampleGate(), i, t, extra)
  {
    assert !PythonSpace("q"[0]) && !PythonSpace("u"[0]);
  }

  // ------------------------------------------------------------- the gate behind the verifier

  function KeyOfRow(r: Row): string {
    match r.kind
    case CommandIdKind => R.CommandIdKey(r.scope, r.value)
    case CommandNonceKind => R.CommandNonceKey(r.scope, r.value)
    case LeaseNonceKind => r.value
  }

  /** Everything the gate has consumed has its marker at the verifier. */
  ghost predicate Mirrors(path: string -> string, rows: set<Row>, disk: set<string>) {
    forall r :: r in rows ==> path(KeyOfRow(r)) in disk
  }

  /** The rows the gate takes for an input. */
  function RowsFor(i: R.Input): set<Row> {
    AuthorizedRows(KeyOf(CommandOf(i.command)), i.lease.claims.nonce)
  }

  lemma RowsMirrorKeys(i: R.Input)
    ensures var k, keys := KeyOf(CommandOf(i.command)), R.ReplayKeys(i);
      && RowsFor(i) == {IdRow(k), NonceRow(k), LeaseRow(i.lease.claims.nonce)}
      && KeyOfRow(IdRow(k)) == keys[0] && KeyOfRow(NonceRow(k)) == keys[1]
      && KeyOfRow(LeaseRow(i.lease.claims.nonce)) == keys[2]
  {
  }

  lemma FreshKeysFreshRows(path: string -> string, rows: set<Row>, disk: set<string>, i: R.Input)
    requires Mirrors(path, rows, disk)
    requires forall k :: 0 <= k < 3 ==> path(R.ReplayKeys(i)[k]) !in disk
    ensures rows !! RowsFor(i)
  {
    RowsMirrorKeys(i);
    var keys := R.ReplayKeys(i);
    assert path(keys[0]) !in disk && path(keys[1]) !in disk && path(keys[2]) !in disk;
  }

  lemma TakenKeysMirrorRows(path: string -> string, rows: set<Row>, disk: set<string>, disk': set<string>, i: R.Input)
    requires Mirrors(path, rows, disk) && disk <= disk'
    requires forall k :: 0 <= k < 3 ==> path(R.ReplayKeys(i)[k]) in disk'
    ensures Mirrors(path, rows + RowsFor(i), disk')
  {
    RowsMirrorKeys(i);
    var keys := R.ReplayKeys(i);
    assert path(keys[0]) in disk' && path(keys[1]) in disk' && path(keys[2]) in disk';
  }

  /** One command on its way through the verifier, with the I/O it meets there, and the gate behind it. */
  datatype Visit = Visit(
    input: R.Input, trusted: R.Trusted, io: nat -> bool,
    cfg: GateConfig, memory: map<string, RevokedLease>, extra: Extra)

  ghost predicate Ready(env: R.Environment, v: Visit) {
    && Matched(env, v.trusted, v.cfg) && KnowsRevoked(v.trusted, v.memory.Keys)
    && PythonOnly(v.cfg, v.input, v.trusted, v.extra)
  }

  /** The Rust checks allow the visit, and the gate is matched to them. */
  ghost predicate Willing(env: R.Environment, v: Visit) {
    Ready(env, v) && R.Screened(env, v.input, v.trusted) == R.Allow
  }

  /** What the gate answers to a visit: its new rows, and whether it allows. */
  ghost function Asked(rows: set<Row>, v: Visit): (set<Row>, bool) {
    var (rows', out) := Evaluate(v.cfg, rows, v.memory, CommandOf(v.input.command), Some(LeaseOf(v.input.lease.claims)),
                                 Some(StateOf(v.input.context, v.extra)), v.trusted.now as int);
    (rows', out.result.allowed)
  }

  /** The gate allows what the Rust checks allow as soon as its own rows are fresh. */
  lemma AllowedWhenRowsFresh(env: R.Environment, rows: set<Row>, v: Visit)
    requires Willing(env, v) && rows !! RowsFor(v.input)
    ensures Asked(rows, v) == (rows + RowsFor(v.input), true)
  {
    RustAllowRefinesPython(env, v.input, v.trusted, v.cfg, v.memory.Keys, v.extra);
    AllowedWhenFresh(v.cfg, rows, v.memory, CommandOf(v.input.command), LeaseOf(v.input.lease.claims),
                     StateOf(v.input.context, v.extra), v.trusted.now as int);
  }

  /** What the verifier allows is fresh at the gate as well, and the stores stay mirrored once it is taken. */
  lemma AllowedIsFreshAtGate(
    path: string -> string, disk: set<string>, rows: set<Row>, i: R.Input, open: R.Decision, io: nat -> bool)
    requires Mirrors(path, rows, disk) && R.Conclude(path, disk, i, open, io).1 == R.Allow
    ensures open == R.Allow && rows !! RowsFor(i)
    ensures Mirrors(path, rows + RowsFor(i), R.Conclude(path, disk, i, open, io).0)
  {
    Laws.AcceptedIsFresh(path, disk, i, open, io);
    FreshKeysFreshRows(path, rows, disk, i);
    TakenKeysMirrorRows(path, rows, disk, R.Conclude(path, disk, i, open, io).0, i);
  }

  /** One command through both, whatever the I/O does: an allow is an allow, and the stores stay mirrored. */
  lemma AllowPassesTheGate(env: R.Environment, path: string -> string, disk: set<string>, rows: set<Row>, v: Visit)
    requires Mirrors(path, rows, disk) && Ready(env, v)
    requires R.Conclude(path, disk, v.input, R.Screened(env, v.input, v.trusted), v.io).1 == R.Allow
    ensures Asked(rows, v).1
    ensures Mirrors(path, Asked(rows, v).0,
                    R.Conclude(path, disk, v.input, R.Screened(env, v.input, v.trusted), v.io).0)
  {
    AllowedIsFreshAtGate(path, disk, rows, v.input, R.Screened(env, v.input, v.trusted), v.io);
    AllowedWhenRowsFresh(env, rows, v);
  }

  // ------------------------------------------------------------- one visit after the other

  /** The two stores, and whether the gate refused what the verifier had allowed. */
  datatype Passage = Passage(disk: set<string>, rows: set<Row>, refused: bool)

  /** The verifier decides; the gate is asked about exactly what the verifier allowed. */
  ghost function Pass(env: R.Environment, path: string -> string, at: Passage, v: Visit): Passage {
    var (disk, decision) := R.Conclude(path, at.disk, v.input, R.Screened(env, v.input, v.trusted), v.io);
    if decision != R.Allow then at.(disk := disk)
    else Passage(disk, Asked(at.rows, v).0, at.refused || !Asked(at.rows, v).1)
  }

  ghost function PassAll(env: R.Environment, path: string -> string, at: Passage, visits: seq<Visit>): Passage
    decreases |visits|
  {
    if visits == [] then at else PassAll(env, path, Pass(env, path, at, visits[0]), visits[1..])
  }

  ghost predicate InStep(path: string -> string, at: Passage) {
    !at.refused && Mirrors(path, at.rows, at.disk)
  }

  lemma PassKeepsStep(env: R.Environment, path: string -> string, at: Passage, v: Visit)
    requires InStep(path, at) && Ready(env, v)
    ensures InStep(path, Pass(env, path, at, v))
  {
    var open := R.Screened(env, v.input, v.trusted);
    Laws.AcceptedIsFresh(path, at.disk, v.input, open, v.io);
    if R.Conclude(path, at.disk, v.input, open, v.io).1 == R.Allow {
      AllowPassesTheGate(env, path, at.disk, at.rows, v);
    }
  }

  /**
    One visit after the other, whatever the I/O does: a gate that only sees what the verifier
    allowed refuses none of it, whatever else the verifier consumed or lost in between.
   */
  lemma {:induction false} BehindOneByOne(env: R.Environment, path: string -> string, at: Passage, visits: seq<Visit>)
    requires InStep(path, at)
    requires forall v :: v in visits ==> Ready(env, v)
    ensures InStep(path, PassAll(env, path, at, visits))
    decreases |visits|
  {
    if visits != [] {
      PassKeepsStep(env, path, at, visits[0]);
      BehindOneByOne(env, path, Pass(env, path, at, visits[0]), visits[1..]);
    }
  }

  // ------------------------------------------------------------- any number of verifiers at once

  /** A visit, and the store call that consumed its keys. */
  datatype Served = Served(call: nat, visit: Visit)

  /** The verifier allowed the visit: its checks did, and its store call succeeded. */
  ghost predicate AllowedBy(env: R.Environment, s: MarkerProtocol.Store, served: Served) {
    && R.Screened(env, served.visit.input, served.visit.trusted) == R.Allow
    && Laws.AcceptedAs(s, served.call, served.visit.input, R.Allow)
  }

  /** A gate asked about one visit after the other allows them all. */
  ghost predicate GateAllowsAll(rows: set<Row>, asked: seq<Served>)
    decreases |asked|
  {
    asked == [] || (Asked(rows, asked[0].visit).1 && GateAllowsAll(Asked(rows, asked[0].visit).0, asked[1..]))
  }

  ghost predicate RowsUntaken(rows: set<Row>, asked: seq<Served>) {
    && (forall k :: 0 <= k < |asked| ==> rows !! RowsFor(asked[k].visit.input))
    && (forall k, l :: 0 <= k < l < |asked| ==> RowsFor(asked[k].visit.input) !! RowsFor(asked[l].visit.input))
  }

  /** Asking about the first leaves the rest untaken. */
  lemma UntakenTail(rows: set<Row>, asked: seq<Served>)
    requires RowsUntaken(rows, asked) && asked != []
    ensures rows !! RowsFor(asked[0].visit.input)
    ensures RowsUntaken(rows + RowsFor(asked[0].visit.input), asked[1..])
  {
    var rest, taken := asked[1..], rows + RowsFor(asked[0].visit.input);
    forall k | 0 <= k < |rest| ensures taken !! RowsFor(rest[k].visit.input) {
      assert rest[k] == asked[k + 1];
    }
    forall k, l | 0 <= k < l < |rest| ensures RowsFor(rest[k].visit.input) !! RowsFor(rest[l].visit.input) {
      assert rest[k] == asked[k + 1] && rest[l] == asked[l + 1];
    }
  }

  ghost predicate AllWilling(env: R.Environment, asked: seq<Served>) {
    forall k :: 0 <= k < |asked| ==> Willing(env, asked[k].visit)
  }

  lemma WillingTail(env: R.Environment, asked: seq<Served>)
    requires AllWilling(env, asked) && asked != []
    ensures Willing(env, asked[0].visit) && AllWilling(env, asked[1..])
  {
    forall k | 0 <= k < |asked[1..]| ensures Willing(env, asked[1..][k].visit) {
      assert asked[1..][k] == asked[k + 1];
    }
  }

  lemma AllAllowedStep(rows: set<Row>, asked: seq<Served>, rows': set<Row>)
    requires asked != [] && Asked(rows, asked[0].visit) == (rows', true) && GateAllowsAll(rows', asked[1..])
    ensures GateAllowsAll(rows, asked)
  {
  }

  lemma {:induction false} UntakenAllAllowed(env: R.Environment, rows: set<Row>, asked: seq<Served>)
    requires RowsUntaken(rows, asked)
    requires AllWilling(env, asked)
    ensures GateAllowsAll(rows, asked)
    decreases |asked|
  {
    if asked == [] {
    } else {
      var rows' := rows + RowsFor(asked[0].visit.input);
      UntakenTail(rows, asked);
      WillingTail(env, asked);
      AllowedWhenRowsFresh(env, rows, asked[0].visit);
      UntakenAllAllowed(env, rows', asked[1..]);
      AllAllowedStep(rows, asked, rows');
    }
  }

  lemma DifferentUsesDifferentRows(i: R.Input, j: R.Input)
    requires i.lease.claims.nonce != j.lease.claims.nonce
    requires i.command.authenticatedAgentId == j.command.authenticatedAgentId ==>
      i.command.commandId != j.command.commandId && i.command.commandNonce != j.command.commandNonce
    ensures RowsFor(i) !! RowsFor(j)
  {
    RowsMirrorKeys(i);
    RowsMirrorKeys(j);
  }

  /**
    Behind the verifiers. Over every run of any number of verifiers on one directory, under all
    interleavings, I/O errors and crashes: a gate whose table is mirrored there at the start (an
    empty one is) allows every visit the verifiers allowed, in whatever order it is asked. The
    digest of a key need not be injective.
   */
  lemma BehindTheVerifier(
    env: R.Environment, path: string -> string, disk: set<string>, steps: seq<MarkerProtocol.Step>, rows: set<Row>,
    asked: seq<Served>)
    requires Mirrors(path, rows, disk)
    requires forall k, l :: 0 <= k < l < |asked| ==> asked[k].call != asked[l].call
    requires forall k :: 0 <= k < |asked| ==>
      Ready(env, asked[k].visit)
      && AllowedBy(env, MarkerProtocol.Run(path, MarkerProtocol.Store(disk, map[]), steps), asked[k])
    ensures GateAllowsAll(rows, asked)
  {
    var s := MarkerProtocol.Run(path, MarkerProtocol.Store(disk, map[]), steps);
    forall k | 0 <= k < |asked| ensures rows !! RowsFor(asked[k].visit.input) {
      var i := asked[k].visit.input;
      forall n | 0 <= n < 3 ensures path(R.ReplayKeys(i)[n]) !in disk {
        Laws.AcceptedSucceeded(s, asked[k].call, i, R.Allow, n);
        MarkerProtocol.OriginalStays(path, disk, steps, asked[k].call, R.ReplayKeys(i)[n]);
      }
      FreshKeysFreshRows(path, rows, disk, i);
    }
    forall k, l | 0 <= k < l < |asked| ensures RowsFor(asked[k].visit.input) !! RowsFor(asked[l].visit.input) {
      Laws.VerifierSingleUse(path, disk, steps, asked[k].call, asked[l].call, asked[k].visit.input,
                             asked[l].visit.input, R.Allow, R.Allow);
      DifferentUsesDifferentRows(asked[k].visit.input, asked[l].visit.input);
    }
    UntakenAllAllowed(env, rows, asked);
  }
}
