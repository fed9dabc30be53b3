/** Messages, configuration values and reason codes shared by the models of the Python side. */
module Core {
  import opened Json

  datatype Option<+T> = None | Some(value: T)

  datatype Capability = RemoteAssist | MissionContinue | AutonomyEscalation | OtherCapability(text: string)

  datatype FallbackAction = LocalAutonomyOnly | CrawlToSafeZone | HoldPosition | RevokeRemoteAssist | EscalateToHuman

  datatype NetworkProfile = UnknownProfile | Normal | DegradedTeleop | UplinkBad | Partition

  /** Reason codes. `Named` stands for the free text a revoker may put into a revocation. */
  datatype Reason =
    | ProtocolVersionUnsupported | IssuerNotTrusted | IssuerKeyNotTrusted | InvalidSignature
    | LeasePolicyProvenanceRequired | LeasePolicyNotAccepted | CapabilityNotGranted
    | LeaseNotYetValid | LeaseExpired | LeaseTimeWindowInvalid | LeaseTtlTooLong | LeaseStale
    | ConstraintRequirementsRequired | LeaseConstraintsMissing | LeaseConstraintMalformed
    | ConstraintBoundsRequired | LeaseConstraintsExceedPolicy
    | LeaseContextMismatch | LeaseRevoked | CurrentStateRequired
    | StateAuthInvalid | StateNotYetValid | StateStale | LeaseStateMismatch
    | GeofenceConstraintViolated | NetworkStateMalformed | NetworkStateUnknown | NetworkDetached
    | NetworkLatencyTooHigh | NetworkPacketLossTooHigh | NetworkUplinkTooLow
    | CommandPayloadSchemaViolation | CommandSpeedConflict | CommandSpeedMissing
    | CommandSpeedMalformed | CommandSpeedTooHigh
    | NoLease | CommandReplayed | LeaseNonceReplayed | EdgeAgentMismatch
    | CommandIdMissing | CommandNonceMissing | CommandAuthenticatedAgentMissing
    | CommandAuthenticatedAgentMismatch | CommandAgentKeyNotTrusted | CommandSignedMaterialTooLarge
    | CommandSignatureInvalid | CommandNotYetValid | CommandStale
    | RevocationContextRequired | RevocationEdgeAgentMismatch | RevocationActorNotTrusted
    | RevocationKeyNotTrusted | RevocationSignatureInvalid | RevocationActorScopeMismatch
    | RevocationNotYetValid | RevocationStale | RevocationTimeInconsistent
    | RevocationLeaseMismatch | RevocationContextMismatch | RevocationReplayed
    | NetworkProfileRevoke | NetworkDegradedRevoke
    | Accepted
    | Named(text: string)

  // ------------------------------------------------------------- text

  /** Characters removed by Python's `str.strip`. */
  predicate PythonSpace(c: char) {
    var n := c as int;
    9 <= n <= 13 || 28 <= n <= 32 || n == 0x85 || n == 0xA0 || n == 0x1680 || 0x2000 <= n <= 0x200A
    || n == 0x2028 || n == 0x2029 || n == 0x202F || n == 0x205F || n == 0x3000
  }

  /** `not text.strip()`. */
  predicate Blank(s: string) {
    forall i :: 0 <= i < |s| ==> PythonSpace(s[i])
  }

  // ------------------------------------------------------------- state assertions

  /** Times are integers in milliseconds, metrics are finite reals. */
  datatype NetworkState = NetworkState(
    profile: NetworkProfile, attached: bool, latencyMsP95: real, packetLossPct: real, uplinkMbps: real, observedAt: int)

  datatype GeofenceState = GeofenceState(geofenceId: string, inside: bool, verifiedAt: int)

  datatype RobotState = RobotState(
    messageId: string, supportedVersion: bool, createdAt: int, observedAt: int,
    robotId: string, edgeAgentId: string, missionId: string,
    network: NetworkState, geofence: GeofenceState, humanOperatorAvailable: bool)

  predicate NetworkStateWellFormed(n: NetworkState) {
    n.latencyMsP95 >= 0.0 && 0.0 <= n.packetLossPct <= 100.0 && n.uplinkMbps >= 0.0
  }

  // ------------------------------------------------------------- leases

  /** `fallbackGiven` records whether the field was present on the wire. */
  datatype LeaseConstraints = LeaseConstraints(
    geofenceId: Option<string>, maxLatencyMsP95: Option<real>, maxPacketLossPct: Option<real>,
    minUplinkMbps: Option<real>, fallbackOnDegrade: FallbackAction, fallbackGiven: bool, maxSpeedMps: Option<real>)

  datatype Lease = Lease(
    supportedVersion: bool, leaseId: string, issuerId: string, agentId: string, edgeAgentId: string,
    robotId: string, missionId: string, capability: Capability, constraints: LeaseConstraints,
    issuedAt: int, expiresAt: int, nonce: string, policyId: string, policyDigest: string)

  datatype Requirement = Requirement(
    capability: Capability, requireGeofenceId: bool, requireNetworkThresholds: bool,
    requireFallbackOnDegrade: bool, requireMaxSpeedMps: bool)

  datatype Bounds = Bounds(
    capability: Capability, geofenceId: Option<string>, maxLatencyMsP95: Option<real>,
    maxPacketLossPct: Option<real>, minUplinkMbps: Option<real>, fallbackOnDegrade: Option<FallbackAction>,
    maxSpeedMps: Option<real>)

  // ------------------------------------------------------------- commands and revocations

  datatype Command = Command(
    supportedVersion: bool, messageId: string, correlationId: string, createdAt: int, commandId: string,
    agentId: string, authenticatedAgentId: Option<string>, edgeAgentId: string, robotId: string,
    missionId: string, capability: Capability, commandNonce: string, payload: Json)

  datatype Revocation = Revocation(
    supportedVersion: bool, messageId: string, correlationId: string, createdAt: int, revokedAt: int,
    leaseId: string, revokedBy: string, edgeAgentId: string, reason: Reason, fallbackAction: FallbackAction,
    robotId: Option<string>, missionId: Option<string>, capability: Option<Capability>)

  /** Outcome of a chain of checks. */
  datatype Verdict = Valid | Invalid(reason: Reason)

  /**
    What the model does not look into: signature verification (algorithm, text size limits
    and the signature itself, under a registered key) and the numeric value of a JSON number.
   */
  datatype Environment = Environment(
    leaseSigned: (Lease, string) -> bool,
    commandSigned: (Command, string) -> bool,
    stateSigned: (RobotState, string) -> bool,
    revocationSigned: (Revocation, string) -> bool,
    numberValue: string -> real)

  datatype GateConfig = GateConfig(
    localEdgeAgentId: string,
    trustedIssuerIds: set<string>,
    issuerKeys: map<string, string>,
    acceptedCapabilities: set<Capability>,
    acceptedPolicyId: string,
    acceptedPolicyDigests: set<string>,
    issuerScopes: map<string, set<Capability>>,
    requirements: map<Capability, Requirement>,
    bounds: map<Capability, Bounds>,
    agentKeys: map<string, string>,
    trustedRevokerIds: set<string>,
    revokerKeys: map<string, string>,
    revokerEdgeScopes: map<string, set<string>>,
    stateKeys: map<string, string>,
    fallbackActions: map<Reason, FallbackAction>,
    maxLeaseAgeSeconds: int,
    maxLeaseTtlSeconds: int,
    maxStateAgeSeconds: int,
    maxCommandAgeSeconds: int,
    maxRevocationAgeSeconds: int,
    env: Environment)

  /** What the gate's constructor insists on. */
  predicate ValidConfig(cfg: GateConfig) {
    && !Blank(cfg.localEdgeAgentId)
    && cfg.trustedIssuerIds != {} && cfg.trustedRevokerIds != {} && cfg.acceptedCapabilities != {}
    && !Blank(cfg.acceptedPolicyId)
    && cfg.acceptedPolicyDigests != {}
    && (forall d :: d in cfg.acceptedPolicyDigests ==> !Blank(d))
    && (forall i :: i in cfg.trustedIssuerIds ==> i in cfg.issuerScopes && cfg.issuerScopes[i] != {})
    && (forall c :: c in cfg.acceptedCapabilities ==>
        && c in cfg.requirements && cfg.requirements[c].capability == c
        && c in cfg.bounds && cfg.bounds[c].capability == c)
    && cfg.agentKeys != map[]
    && cfg.revokerEdgeScopes.Keys == cfg.trustedRevokerIds
  }
}
