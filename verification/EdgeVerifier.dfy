/**
  The Rust edge verifier: its messages, its checks over 64-bit times, and `verify` against
  the marker-file store. Signatures, the text size budget and the value of a JSON number
  are parameters (`Environment`).
 */
module EdgeVerifier {
  import opened Json
  import opened MarkerProtocol
  import opened MarkerStore
  import PayloadBudget

  // ------------------------------------------------------------- 64-bit integers

  newtype i64 = x: int | -0x8000_0000_0000_0000 <= x < 0x8000_0000_0000_0000

  datatype Maybe<+T> = Nothing | Just(value: T)

  predicate Fits(x: int) { -0x8000_0000_0000_0000 <= x < 0x8000_0000_0000_0000 }

  function CheckedAdd(a: i64, b: i64): Maybe<i64> {
    var sum := a as int + b as int;
    if Fits(sum) then Just(sum as i64) else Nothing
  }

  function CheckedSub(a: i64, b: i64): Maybe<i64> {
    var difference := a as int - b as int;
    if Fits(difference) then Just(difference as i64) else Nothing
  }

  /** Between nonnegative times a checked subtraction is the integer subtraction. */
  lemma CheckedSubExact(a: i64, b: i64)
    requires a >= 0 && b >= 0
    ensures CheckedSub(a, b).Just? && CheckedSub(a, b).value as int == a as int - b as int
  {
  }

  const CLOCK_SKEW_MS: i64 := 30_000

  // ------------------------------------------------------------- messages

  datatype NetworkViolationAction = DenyAction | DegradeAction

  datatype NetworkProfile = UnknownProfile | Normal | DegradedTeleop | UplinkBad | Partition

  datatype Constraints = Constraints(
    geofenceId: Maybe<string>, maxLatencyMsP95: Maybe<real>, maxPacketLossPct: Maybe<real>, minUplinkMbps: Maybe<real>,
    fallbackOnDegrade: Maybe<string>, maxSpeedMps: Maybe<real>, networkViolationAction: Maybe<NetworkViolationAction>)

  datatype Claims = Claims(
    protocolVersion: string, messageId: string, correlationId: string, createdAt: i64, messageType: string,
    leaseId: string, issuerId: string, agentId: string, edgeAgentId: string, robotId: string, missionId: string,
    capability: string, constraints: Constraints, issuedAt: i64, expiresAt: i64, notBefore: Maybe<i64>, nonce: string,
    policyId: string, policyDigest: string)

  datatype Envelope = Envelope(alg: string, claims: Claims, signature: string)

  datatype EdgeCommand = EdgeCommand(
    protocolVersion: string, messageId: string, correlationId: string, messageType: string, commandId: string,
    agentId: string, authenticatedAgentId: string, edgeAgentId: string, robotId: string, missionId: string,
    capability: string, commandNonce: string, createdAt: i64, payload: Json, signature: Maybe<string>)

  datatype NetworkReport = NetworkReport(
    profile: NetworkProfile, attached: bool, latencyMsP95: real, packetLossPct: real, uplinkMbps: real, observedAt: i64)

  datatype GeofenceReport = GeofenceReport(geofenceId: string, inside: bool, verifiedAt: i64)

  datatype LocalContext = LocalContext(
    robotId: string, edgeAgentId: string, authenticatedEdgeAgentId: Maybe<string>, missionId: string, observedAt: i64,
    network: NetworkReport, geofence: GeofenceReport, signature: Maybe<string>)

  datatype Input = Input(lease: Envelope, command: EdgeCommand, context: LocalContext)

  datatype PolicyReference = PolicyReference(policyId: string, policyDigest: string)
  datatype IssuerScope = IssuerScope(issuerId: string, capabilities: seq<string>)
  datatype Requirement = Requirement(
    capability: string, requireGeofenceId: bool, requireNetworkThresholds: bool, requireFallbackOnDegrade: bool,
    requireMaxSpeedMps: bool)
  datatype Bounds = Bounds(
    capability: string, geofenceId: Maybe<string>, maxLatencyMsP95: Maybe<real>, maxPacketLossPct: Maybe<real>,
    minUplinkMbps: Maybe<real>, fallbackOnDegrade: Maybe<string>, maxSpeedMps: Maybe<real>,
    networkViolationAction: Maybe<NetworkViolationAction>)

  datatype Trusted = Trusted(
    policyId: string, policyDigest: string, auditChainHead: string, acceptedPolicies: seq<PolicyReference>,
    issuerIds: seq<string>, acceptedCapabilities: seq<string>, issuerScopes: seq<IssuerScope>,
    requirements: seq<Requirement>, bounds: seq<Bounds>, commandAgentIds: seq<string>, commandSecret: string,
    leaseSecret: string, stateEdgeIds: seq<string>, stateSecret: string, revocations: seq<string>, now: i64,
    maxLeaseTtlMs: i64, maxLeaseAgeMs: i64, maxStateAgeMs: i64, maxCommandAgeMs: i64)

  datatype Environment = Environment(
    leaseSigned: (Claims, string, string) -> bool,
    commandSigned: (EdgeCommand, string, string) -> bool,
    contextSigned: (LocalContext, string, string) -> bool,
    textTooLarge: Input -> bool,
    numberValue: string -> real)

  datatype Denial =
    | MalformedInput | UnknownAlgorithm | SignedMaterialTooLarge
    | CommandAgentMissing | CommandAgentMismatch | CommandAgentNotTrusted | CommandSignatureMissing
    | InvalidCommandSignature | CommandNotYetValid | StaleCommand
    | PolicyDigestRequired | PolicyDigestNotAccepted | UnknownIssuer | InvalidSignature | CapabilityNotGranted
    | NotYetValid | ExpiredLease | TtlTooLong | StaleLease | RevokedLease
    | RobotMismatch | AgentMismatch | MissionMismatch | LeaseConstraintsExceedPolicy
    | StateEdgeMissing | StateEdgeMismatch | StateKeyNotTrusted | StateSignatureMissing | InvalidStateSignature
    | StaleState | GeofenceViolation | NetworkPolicy | CommandConstraint
    | ReplayedNonce | ReplayedCommand

  datatype Check = Pass | Fail(reason: Denial)

  function Then(first: Check, second: Check): Check {
    if first.Pass? then second else first
  }

  function Unless(bad: bool, reason: Denial): Check {
    if bad then Fail(reason) else Pass
  }

  datatype Decision = Allow | Degrade | Deny(reason: Denial)

  const SUPPORTED_PROTOCOL_VERSION := "0.0.1-draft"
  const LEASE_MESSAGE_TYPE := "capability_lease"
  const COMMAND_MESSAGE_TYPE := "edge_command"
  const HMAC_ALG := "RCLP-DEV-HMAC-SHA256"
  const HASH_PREFIX := "sha256:"

  // ------------------------------------------------------------- shape of the input

  predicate AnyBlank(values: seq<string>) {
    exists i :: 0 <= i < |values| && RustBlank(values[i])
  }

  function RequiredTexts(i: Input, t: Trusted): seq<string> {
    var l := i.lease.claims;
    var c := i.command;
    [ i.lease.alg, i.lease.signature, l.protocolVersion, l.messageId, l.correlationId, l.messageType, l.leaseId,
      l.issuerId, l.agentId, l.edgeAgentId, l.robotId, l.missionId, l.capability, l.nonce, l.policyId, l.policyDigest ]
    + [ c.protocolVersion, c.messageId, c.correlationId, c.messageType, c.commandId, c.agentId, c.edgeAgentId, c.robotId,
        c.missionId, c.capability, c.commandNonce ]
    + [ i.context.robotId, i.context.edgeAgentId, i.context.missionId ]
    + [ t.policyId, t.policyDigest, t.auditChainHead, t.commandSecret, t.leaseSecret, t.stateSecret ]
  }

  /** Where `trim` starts and ends. */
  function TrimStart(s: string): (r: string)
    ensures |r| <= |s| && (r != [] ==> !RustSpace(r[0]))
  {
    if s == [] || !RustSpace(s[0]) then s else TrimStart(s[1..])
  }

  function TrimEnd(s: string): (r: string)
    ensures |r| <= |s| && (r != [] ==> !RustSpace(r[|r| - 1]))
  {
    if s == [] || !RustSpace(s[|s| - 1]) then s else TrimEnd(s[..|s| - 1])
  }

  predicate ChainHeadWellFormed(head: string) {
    var value := TrimStart(TrimEnd(head));
    HASH_PREFIX <= value && |value| > |HASH_PREFIX|
  }

  function Occurrences(names: seq<string>, name: string): nat {
    if names == [] then 0 else (if names[0] == name then 1 else 0) + Occurrences(names[1..], name)
  }

  function RequirementNames(items: seq<Requirement>): seq<string> {
    seq(|items|, i requires 0 <= i < |items| => items[i].capability)
  }

  function BoundNames(items: seq<Bounds>): seq<string> {
    seq(|items|, i requires 0 <= i < |items| => items[i].capability)
  }

  predicate CoversOnce(names: seq<string>, capabilities: seq<string>) {
    forall i :: 0 <= i < |capabilities| ==> Occurrences(names, capabilities[i]) == 1
  }

  predicate PolicyBlank(p: PolicyReference) { RustBlank(p.policyId) || RustBlank(p.policyDigest) }

  predicate ScopeBlank(s: IssuerScope) {
    RustBlank(s.issuerId) || s.capabilities == [] || AnyBlank(s.capabilities)
  }

  predicate ScopeMalformed(t: Trusted) {
    || t.acceptedCapabilities == [] || !ChainHeadWellFormed(t.auditChainHead) || AnyBlank(t.acceptedCapabilities)
    || t.acceptedPolicies == [] || (exists p :: p in t.acceptedPolicies && PolicyBlank(p))
    || t.issuerScopes == [] || t.requirements == [] || t.bounds == [] || AnyBlank(t.commandAgentIds)
    || (exists s :: s in t.issuerScopes && ScopeBlank(s))
    || !CoversOnce(RequirementNames(t.requirements), t.acceptedCapabilities)
    || !CoversOnce(BoundNames(t.bounds), t.acceptedCapabilities)
    || AnyBlank(RequirementNames(t.requirements)) || AnyBlank(BoundNames(t.bounds))
  }

  predicate TextMissing(i: Input, t: Trusted) {
    AnyBlank(RequiredTexts(i, t)) || t.issuerIds == [] || ScopeMalformed(t) || t.stateEdgeIds == []
    || t.commandAgentIds == []
  }

  predicate EnvelopeViolated(i: Input) {
    || i.lease.claims.protocolVersion != SUPPORTED_PROTOCOL_VERSION || i.lease.claims.messageType != LEASE_MESSAGE_TYPE
    || i.command.protocolVersion != SUPPORTED_PROTOCOL_VERSION || i.command.messageType != COMMAND_MESSAGE_TYPE
  }

  predicate Negative(value: Maybe<real>) { value.Just? && value.value < 0.0 }

  predicate NotPercent(value: Maybe<real>) { value.Just? && !(0.0 <= value.value <= 100.0) }

  predicate BlankText(value: Maybe<string>) { value.Just? && RustBlank(value.value) }

  predicate BoundsMalformed(b: Bounds) {
    || BlankText(b.geofenceId) || Negative(b.maxLatencyMsP95) || NotPercent(b.maxPacketLossPct)
    || Negative(b.minUplinkMbps) || Negative(b.maxSpeedMps) || BlankText(b.fallbackOnDegrade)
  }

  predicate TimesMalformed(i: Input, t: Trusted) {
    || t.now < 0 || i.lease.claims.issuedAt < 0 || i.lease.claims.expiresAt < 0 || i.lease.claims.createdAt < 0
    || (i.lease.claims.notBefore.Just? && i.lease.claims.notBefore.value < 0)
    || t.maxLeaseTtlMs <= 0 || t.maxLeaseAgeMs <= 0 || t.maxStateAgeMs <= 0 || t.maxCommandAgeMs <= 0
    || i.command.createdAt < 0 || i.context.observedAt < 0 || i.context.network.observedAt < 0
    || i.context.geofence.verifiedAt < 0
  }

  predicate MetricsMalformed(i: Input, t: Trusted) {
    var n := i.context.network;
    var c := i.lease.claims.constraints;
    || n.latencyMsP95 < 0.0 || !(0.0 <= n.packetLossPct <= 100.0) || n.uplinkMbps < 0.0
    || Negative(c.maxLatencyMsP95) || NotPercent(c.maxPacketLossPct) || Negative(c.minUplinkMbps)
    || Negative(c.maxSpeedMps)
    || exists k :: 0 <= k < |t.bounds| && BoundsMalformed(t.bounds[k])
  }

  // ------------------------------------------------------------- authentication and policy

  /** `command_time_violation`. */
  function CommandTime(createdAt: i64, t: Trusted): Check {
    var maxAge := CheckedAdd(t.maxCommandAgeMs, CLOCK_SKEW_MS);
    var latest := CheckedAdd(t.now, CLOCK_SKEW_MS);
    if maxAge.Nothing? || latest.Nothing? then Fail(MalformedInput)
    else if createdAt > latest.value then Fail(CommandNotYetValid)
    else
      var age := CheckedSub(t.now, createdAt);
      if age.Nothing? then Fail(CommandNotYetValid)
      else Unless(age.value > maxAge.value, StaleCommand)
  }

  function CommandAuth(env: Environment, i: Input, t: Trusted): Check {
    var c := i.command;
    if RustBlank(c.authenticatedAgentId) then Fail(CommandAgentMissing)
    else if c.authenticatedAgentId != c.agentId then Fail(CommandAgentMismatch)
    else if c.authenticatedAgentId !in t.commandAgentIds then Fail(CommandAgentNotTrusted)
    else if c.signature.Nothing? || RustBlank(c.signature.value) then Fail(CommandSignatureMissing)
    else if !env.commandSigned(c, c.signature.value, t.commandSecret) then Fail(InvalidCommandSignature)
    else CommandTime(c.createdAt, t)
  }

  function PolicyDigest(t: Trusted, l: Claims): Check {
    if RustBlank(t.policyId) || RustBlank(t.policyDigest) || RustBlank(l.policyId) || RustBlank(l.policyDigest)
    then Fail(PolicyDigestRequired)
    else if l.policyId != t.policyId || l.policyDigest != t.policyDigest then Fail(PolicyDigestNotAccepted)
    else Unless(PolicyReference(t.policyId, t.policyDigest) !in t.acceptedPolicies, PolicyDigestNotAccepted)
  }

  /** Everything checked before the command counts as authentic, given whether the payload is over budget. */
  function Admission(env: Environment, i: Input, t: Trusted, overBudget: bool): Check {
    if TextMissing(i, t) || EnvelopeViolated(i) || TimesMalformed(i, t) || MetricsMalformed(i, t)
    then Fail(MalformedInput)
    else if env.textTooLarge(i) || overBudget then Fail(SignedMaterialTooLarge)
    else if i.lease.alg != HMAC_ALG then Fail(UnknownAlgorithm)
    else if |t.issuerIds| != 1 || |t.commandAgentIds| != 1 || |t.stateEdgeIds| != 1 then Fail(MalformedInput)
    else
      var policy := PolicyDigest(t, i.lease.claims);
      if CommandAuth(env, i, t).Fail? && policy.Fail? then policy
      else Then(CommandAuth(env, i, t), policy)
  }

  // ------------------------------------------------------------- the lease

  predicate CapabilityAllowed(l: Claims, t: Trusted) {
    && l.capability in t.acceptedCapabilities
    && exists k :: 0 <= k < |t.issuerScopes| && t.issuerScopes[k].issuerId == l.issuerId
        && l.capability in t.issuerScopes[k].capabilities
  }

  /** The lifetime checks, in the order and with the overflow exits of the source. */
  function LeaseTime(l: Claims, t: Trusted): Check {
    if l.notBefore.Just? && t.now < l.notBefore.value then Fail(NotYetValid)
    else if t.now < l.issuedAt then Fail(NotYetValid)
    else if t.now >= l.expiresAt then Fail(ExpiredLease)
    else if l.expiresAt <= l.issuedAt then Fail(MalformedInput)
    else
      var ttl := CheckedSub(l.expiresAt, l.issuedAt);
      if ttl.Nothing? then Fail(MalformedInput)
      else if ttl.value > t.maxLeaseTtlMs then Fail(TtlTooLong)
      else
        var age := CheckedSub(t.now, l.issuedAt);
        var maxAge := CheckedAdd(t.maxLeaseAgeMs, 30_000);
        if age.Nothing? || maxAge.Nothing? then Fail(MalformedInput)
        else Unless(age.value > maxAge.value, StaleLease)
  }

  function Context(i: Input): Check {
    var l := i.lease.claims;
    var c := i.command;
    if c.robotId != l.robotId || i.context.robotId != l.robotId then Fail(RobotMismatch)
    else if c.agentId != l.agentId || c.edgeAgentId != l.edgeAgentId || i.context.edgeAgentId != l.edgeAgentId
    then Fail(AgentMismatch)
    else if c.missionId != l.missionId || i.context.missionId != l.missionId then Fail(MissionMismatch)
    else Unless(c.capability != l.capability, CapabilityNotGranted)
  }

  function FindRequirement(items: seq<Requirement>, capability: string): (r: Maybe<Requirement>)
    ensures r.Just? ==> r.value in items && r.value.capability == capability
  {
    if items == [] then Nothing
    else if items[0].capability == capability then Just(items[0])
    else FindRequirement(items[1..], capability)
  }

  function FindBounds(items: seq<Bounds>, capability: string): (b: Maybe<Bounds>)
    ensures b.Just? ==> b.value in items && b.value.capability == capability
  {
    if items == [] then Nothing
    else if items[0].capability == capability then Just(items[0])
    else FindBounds(items[1..], capability)
  }

  predicate AbsentOrBlank(value: Maybe<string>) { value.Nothing? || RustBlank(value.value) }

  predicate ConstraintsMissing(c: Constraints, r: Requirement) {
    || (r.requireGeofenceId && AbsentOrBlank(c.geofenceId))
    || (r.requireNetworkThresholds
        && (c.maxLatencyMsP95.Nothing? || c.maxPacketLossPct.Nothing? || c.minUplinkMbps.Nothing?))
    || (r.requireFallbackOnDegrade && AbsentOrBlank(c.fallbackOnDegrade))
    || (r.requireMaxSpeedMps && c.maxSpeedMps.Nothing?)
  }

  predicate MaxExceeds(value: Maybe<real>, bound: Maybe<real>) {
    value.Just? && (bound.Nothing? || value.value > bound.value)
  }

  predicate MinExceeds(value: Maybe<real>, bound: Maybe<real>) {
    value.Just? && (bound.Nothing? || value.value < bound.value)
  }

  predicate TextExceeds(value: Maybe<string>, bound: Maybe<string>) {
    if bound.Just? then value != bound else value.Just?
  }

  predicate ConstraintsExceed(c: Constraints, b: Bounds) {
    || (b.geofenceId.Just? && c.geofenceId != b.geofenceId)
    || MaxExceeds(c.maxLatencyMsP95, b.maxLatencyMsP95) || MaxExceeds(c.maxPacketLossPct, b.maxPacketLossPct)
    || MinExceeds(c.minUplinkMbps, b.minUplinkMbps) || MaxExceeds(c.maxSpeedMps, b.maxSpeedMps)
    || TextExceeds(c.fallbackOnDegrade, b.fallbackOnDegrade)
    || (c.networkViolationAction.Just? && b.networkViolationAction != c.networkViolationAction)
  }

  function Limits(l: Claims, t: Trusted): Check {
    var r := FindRequirement(t.requirements, l.capability);
    var b := FindBounds(t.bounds, l.capability);
    if r.Nothing? || ConstraintsMissing(l.constraints, r.value) then Fail(MalformedInput)
    else Unless(b.Nothing? || ConstraintsExceed(l.constraints, b.value), LeaseConstraintsExceedPolicy)
  }

  function LeaseChecks(env: Environment, i: Input, t: Trusted): Check {
    var l := i.lease.claims;
    if l.issuerId !in t.issuerIds then Fail(UnknownIssuer)
    else if !env.leaseSigned(l, i.lease.signature, t.leaseSecret) then Fail(InvalidSignature)
    else if !CapabilityAllowed(l, t) then Fail(CapabilityNotGranted)
    else Then(LeaseTime(l, t), Then(Unless(l.leaseId in t.revocations, RevokedLease), Then(Context(i), Limits(l, t))))
  }

  // ------------------------------------------------------------- local state

  function StateAuth(env: Environment, x: LocalContext, t: Trusted): Check {
    if AbsentOrBlank(x.authenticatedEdgeAgentId) then Fail(StateEdgeMissing)
    else if x.authenticatedEdgeAgentId.value != x.edgeAgentId then Fail(StateEdgeMismatch)
    else if x.authenticatedEdgeAgentId.value !in t.stateEdgeIds then Fail(StateKeyNotTrusted)
    else if AbsentOrBlank(x.signature) then Fail(StateSignatureMissing)
    else Unless(!env.contextSigned(x, x.signature.value, t.stateSecret), InvalidStateSignature)
  }

  function TimestampCheck(timestamp: i64, now: i64, latest: i64, maxAge: i64): Check {
    var age := CheckedSub(now, timestamp);
    Unless(timestamp > latest || (age.Just? && age.value > maxAge), StaleState)
  }

  function StateTime(x: LocalContext, t: Trusted): Check {
    var maxAge := CheckedAdd(t.maxStateAgeMs, CLOCK_SKEW_MS);
    var latest := CheckedAdd(t.now, CLOCK_SKEW_MS);
    if maxAge.Nothing? || latest.Nothing? then Fail(MalformedInput)
    else
      Then(TimestampCheck(x.observedAt, t.now, latest.value, maxAge.value),
      Then(TimestampCheck(x.network.observedAt, t.now, latest.value, maxAge.value),
           TimestampCheck(x.geofence.verifiedAt, t.now, latest.value, maxAge.value)))
  }

  predicate GeofenceViolated(c: Constraints, g: GeofenceReport) {
    c.geofenceId.Just?
    && (RustBlank(c.geofenceId.value) || RustBlank(g.geofenceId) || !g.inside || g.geofenceId != c.geofenceId.value)
  }

  predicate HardDenial(n: NetworkReport) {
    n.profile.UnknownProfile? || n.profile.Partition? || !n.attached
  }

  predicate ThresholdDenial(c: Constraints, n: NetworkReport) {
    || (c.maxLatencyMsP95.Just? && n.latencyMsP95 > c.maxLatencyMsP95.value)
    || (c.maxPacketLossPct.Just? && n.packetLossPct > c.maxPacketLossPct.value)
    || (c.minUplinkMbps.Just? && n.uplinkMbps < c.minUplinkMbps.value)
  }

  /** `network_policy_violation`: the decision the network leaves open. */
  function Network(c: Constraints, n: NetworkReport): Decision {
    if !HardDenial(n) && !ThresholdDenial(c, n) then Allow
    else if c.fallbackOnDegrade.Nothing? || c.fallbackOnDegrade.value == "" then Deny(MalformedInput)
    else if HardDenial(n) then Deny(NetworkPolicy)
    else if c.networkViolationAction == Just(DegradeAction) then Degrade
    else Deny(NetworkPolicy)
  }

  function StateChecks(env: Environment, i: Input, t: Trusted): Check {
    Then(StateAuth(env, i.context, t),
    Then(StateTime(i.context, t),
         Unless(GeofenceViolated(i.lease.claims.constraints, i.context.geofence), GeofenceViolation)))
  }

  // ------------------------------------------------------------- payload

  const MAX_SPEED_FIELD := "max_speed_mps"
  const SPEED_FIELD := "speed_mps"

  /** A numeric payload field: absent, malformed (`None` in the second component) or a number. */
  function NumberField(numberValue: string -> real, payload: Json, field: string): (Check, Maybe<real>)
    requires payload.Object?
  {
    if field !in payload.fields then (Pass, Nothing)
    else
      var v := payload.fields[field];
      if !v.Number? || numberValue(v.text) < 0.0 then (Fail(MalformedInput), Nothing)
      else (Pass, Just(numberValue(v.text)))
  }

  function PayloadSpeed(numberValue: string -> real, payload: Json): (Check, Maybe<real>) {
    if !payload.Object? then (Fail(MalformedInput), Nothing)
    else if !(payload.fields.Keys <= {MAX_SPEED_FIELD, SPEED_FIELD}) then (Fail(CommandConstraint), Nothing)
    else
      var (first, maxSpeed) := NumberField(numberValue, payload, MAX_SPEED_FIELD);
      var (second, speed) := NumberField(numberValue, payload, SPEED_FIELD);
      if Then(first, second).Fail? then (Then(first, second), Nothing)
      else if maxSpeed.Just? && speed.Just? && maxSpeed != speed then (Fail(CommandConstraint), Nothing)
      else (Pass, if maxSpeed.Just? then maxSpeed else speed)
  }

  function PayloadCheck(numberValue: string -> real, c: Constraints, payload: Json): Check {
    var (ok, speed) := PayloadSpeed(numberValue, payload);
    if ok.Fail? then ok
    else if c.maxSpeedMps.Nothing? then Unless(speed.Just?, CommandConstraint)
    else Unless(speed.Nothing? || speed.value > c.maxSpeedMps.value, CommandConstraint)
  }

  // ------------------------------------------------------------- verify

  /** Everything `verify` checks before it touches the replay store. */
  function Screening(env: Environment, i: Input, t: Trusted, overBudget: bool): Decision {
    var checks :=
      Then(Admission(env, i, t, overBudget), Then(LeaseChecks(env, i, t), StateChecks(env, i, t)));
    if checks.Fail? then Deny(checks.reason)
    else
      var network := Network(i.lease.claims.constraints, i.context.network);
      if network.Deny? then network
      else
        var payload := PayloadCheck(env.numberValue, i.lease.claims.constraints, i.command.payload);
        if payload.Fail? then Deny(payload.reason) else network
  }

  ghost function Screened(env: Environment, i: Input, t: Trusted): Decision {
    Screening(env, i, t, !PayloadBudget.WithinBudget(PayloadBudget.RustWeight, i.command.payload))
  }

  const COMMAND_ID_PREFIX := "command-id:"
  const COMMAND_NONCE_PREFIX := "command-nonce:"

  function CommandIdKey(agentId: string, commandId: string): string { COMMAND_ID_PREFIX + agentId + ":" + commandId }
  function CommandNonceKey(agentId: string, nonce: string): string { COMMAND_NONCE_PREFIX + agentId + ":" + nonce }

  function ReplayKeys(i: Input): seq<string> {
    [ CommandIdKey(i.command.authenticatedAgentId, i.command.commandId),
      CommandNonceKey(i.command.authenticatedAgentId, i.command.commandNonce),
      i.lease.claims.nonce ]
  }

  function Final(open: Decision, consumed: ConsumeResult): Decision {
    match consumed
    case Consumed => open
    case Rejected(index) => if index == 2 then Deny(ReplayedNonce) else Deny(ReplayedCommand)
  }

  /** The end of `verify`: a decision the checks left open becomes final with the replay store. */
  ghost function Conclude(path: string -> string, disk: set<string>, i: Input, open: Decision, io: nat -> bool)
    : (set<string>, Decision)
  {
    if open.Deny? then (disk, open)
    else
      var (disk', consumed) := Consume(path, disk, Keys, ReplayKeys(i), io);
      (disk', Final(open, consumed))
  }

  /** `verify` on a store with the given markers and I/O behaviour. */
  ghost function VerifyOn(
    env: Environment, path: string -> string, durable: bool, disk: set<string>, i: Input, t: Trusted, io: nat -> bool)
    : (set<string>, Decision)
  {
    if !durable then (disk, Deny(MalformedInput)) else Conclude(path, disk, i, Screened(env, i, t), io)
  }

  /** `final_replay_violation`, folded into the decision that was open so far. */
  method FinalReplay(cache: FileReplayCache, i: Input, open: Decision, io: nat -> bool) returns (decision: Decision)
    modifies cache`disk
    ensures var (disk, consumed) := Consume(cache.path, old(cache.disk), Keys, ReplayKeys(i), io);
      cache.disk == disk && decision == Final(open, consumed)
  {
    var consumed := cache.ConsumeNonces(ReplayKeys(i), io);
    decision := Final(open, consumed);
  }

  method Verify(env: Environment, cache: FileReplayCache, i: Input, t: Trusted, io: nat -> bool)
    returns (decision: Decision)
    modifies cache`disk
    ensures (cache.disk, decision) == VerifyOn(env, cache.path, cache.Durable(), old(cache.disk), i, t, io)
  {
    if !cache.Durable() { return Deny(MalformedInput); }
    var over := PayloadBudget.RustBudgetViolation(i.command.payload);
    var open := Screening(env, i, t, over);
    if open.Deny? { return open; }
    decision := FinalReplay(cache, i, open, io);
  }
}
