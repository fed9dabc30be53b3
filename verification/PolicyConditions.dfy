/**
  When the policy service allows a request, what it then grants, and which requests consume their
  nonce, told from the fields of the messages, the policy and the configuration alone. The
  conditions are written in positive form and share no check with `Policy`; `AllowedExactly` and
  `ConsumedExactly` are equivalences.
 */
module PolicyConditions {
  import opened Core
  import opened Conformance
  import opened Policy

  const SKEW := 30_000

  predicate NonBlank(s: string) { exists k :: 0 <= k < |s| && !PythonSpace(s[k]) }

  /** No older than `maxAgeSeconds` and the skew, no further ahead than the skew. */
  predicate Recent(timestamp: int, now: int, maxAgeSeconds: int) {
    timestamp - SKEW <= now <= timestamp + 1000 * maxAgeSeconds + SKEW
  }

  // ------------------------------------------------------------- before the nonce

  /** In a supported version, signed by the agent it names, and recent; a request gets no skew on its age. */
  ghost predicate RequestGenuine(s: Service, r: Request, state: RobotState, cp: Option<ControlPlane>, now: int) {
    && r.supportedVersion && state.supportedVersion && (cp.Some? ==> cp.value.supportedVersion)
    && r.authenticatedAgentId == Some(r.requestingAgentId) && r.requestingAgentId in s.agentKeys
    && s.requestSigned(r, s.agentKeys[r.requestingAgentId])
    && r.createdAt - SKEW <= now <= r.createdAt + 1000 * s.maxRequestAgeSeconds
  }

  function NonceOf(r: Request): NonceKey { NonceKey(r.requestingAgentId, r.requestNonce) }

  // ------------------------------------------------------------- scope, states, site

  /** The policy is accepted, covers the request, and lists everyone it names. */
  predicate InScope(s: Service, policy: Policy, r: Request) {
    var req := policy.requirements;
    && s.digest(policy) in s.acceptedDigests && r.capability == policy.capability
    && r.requestedDurationSeconds <= policy.leaseTtlSeconds
    && r.requestingAgentId in req.allowedAgents && r.edgeAgentId in req.allowedEdgeAgents
    && r.robotId in req.allowedRobots && r.missionId in req.allowedMissions
  }

  /** Authentic, about the robot, edge and mission of the request, and recent in all four times. */
  predicate StateGenuine(s: Service, policy: Policy, r: Request, x: RobotState, now: int) {
    && s.stateAuthentic(x, policy.requirements.humanOperatorAvailable)
    && x.robotId == r.robotId && x.edgeAgentId == r.edgeAgentId && x.missionId == r.missionId
    && Recent(x.createdAt, now, s.maxStateAgeSeconds) && Recent(x.observedAt, now, s.maxStateAgeSeconds)
    && Recent(x.network.observedAt, now, s.maxStateAgeSeconds)
    && Recent(x.geofence.verifiedAt, now, s.maxStateAgeSeconds)
  }

  /** When required: given, authentic, about the same robot, recent, and reachable when that is required too. */
  predicate ControlPlaneMet(s: Service, policy: Policy, r: Request, cp: Option<ControlPlane>, now: int) {
    policy.requirements.controlPlaneRequired ==>
      && cp.Some? && s.controlPlaneAuthentic(cp.value)
      && cp.value.robotId == r.robotId && cp.value.edgeAgentId == r.edgeAgentId && cp.value.missionId == r.missionId
      && Recent(cp.value.createdAt, now, s.maxStateAgeSeconds) && Recent(cp.value.observedAt, now, s.maxStateAgeSeconds)
      && (policy.requirements.controlPlaneMustBeReachable ==>
          cp.value.reachable && (cp.value.reachability.Reachable? || cp.value.reachability.ReachabilityDegraded?))
  }

  /** Thresholds and limits are sane, and a limit never lies on the wrong side of its threshold. */
  predicate RequirementsSane(n: NetworkRequirements) {
    && 0.0 <= n.maxLatencyMsP95 <= n.denyAboveLatencyMsP95
    && 0.0 <= n.maxPacketLossPct <= n.denyAbovePacketLossPct <= 100.0
    && 0.0 <= n.denyBelowUplinkMbps <= n.minUplinkMbps
  }

  predicate GeofenceGood(policy: Policy, x: RobotState) {
    policy.requirements.geofenceRequired ==>
      && policy.requirements.geofenceId.Some? && NonBlank(policy.requirements.geofenceId.value)
      && x.geofence.geofenceId == policy.requirements.geofenceId.value
      && x.geofence.inside == policy.requirements.geofenceAllowed
  }

  predicate OperatorPresent(policy: Policy, x: RobotState) {
    policy.requirements.humanOperatorAvailable ==> x.humanOperatorAvailable
  }

  /** Connected, with sane metrics that meet the policy's thresholds. */
  predicate NetworkGood(req: NetworkRequirements, n: NetworkState) {
    && n.attached && (n.profile.Normal? || n.profile.DegradedTeleop? || n.profile.UplinkBad?)
    && 0.0 <= n.latencyMsP95 <= req.maxLatencyMsP95
    && 0.0 <= n.packetLossPct <= req.maxPacketLossPct
    && req.minUplinkMbps <= n.uplinkMbps
  }

  // ------------------------------------------------------------- what is asked for and what is granted

  /** The request narrows: no limit beyond the policy's, no other geofence, no other fallback. */
  predicate Narrows(policy: Policy, x: RobotState, asked: LeaseConstraints) {
    var net := policy.requirements.network;
    && (asked.geofenceId.Some? ==> asked.geofenceId.value == x.geofence.geofenceId)
    && (asked.maxLatencyMsP95.Some? ==> asked.maxLatencyMsP95.value <= net.maxLatencyMsP95)
    && (asked.maxPacketLossPct.Some? ==> asked.maxPacketLossPct.value <= net.maxPacketLossPct)
    && (asked.minUplinkMbps.Some? ==> net.minUplinkMbps <= asked.minUplinkMbps.value)
    && (asked.fallbackGiven ==> asked.fallbackOnDegrade == policy.fallback.onNetworkDegrade)
    && (asked.maxSpeedMps.Some? ==>
        policy.requirements.maxSpeedMps.Some? && asked.maxSpeedMps.value <= policy.requirements.maxSpeedMps.value)
  }

  function Smaller(limit: real, asked: Option<real>): real {
    if asked.Some? && asked.value <= limit then asked.value else limit
  }

  function Larger(limit: real, asked: Option<real>): real {
    if asked.Some? && limit <= asked.value then asked.value else limit
  }

  /** The tighter of the policy's and the requested limit, field by field, in the geofence of the state. */
  function Tightest(policy: Policy, x: RobotState, asked: LeaseConstraints): LeaseConstraints {
    var net := policy.requirements.network;
    LeaseConstraints(
      Some(x.geofence.geofenceId), Some(Smaller(net.maxLatencyMsP95, asked.maxLatencyMsP95)),
      Some(Smaller(net.maxPacketLossPct, asked.maxPacketLossPct)), Some(Larger(net.minUplinkMbps, asked.minUplinkMbps)),
      policy.fallback.onNetworkDegrade, true,
      if policy.requirements.maxSpeedMps.Some?
      then Some(Smaller(policy.requirements.maxSpeedMps.value, asked.maxSpeedMps)) else None)
  }

  const NOTHING_ASKED := LeaseConstraints(None, None, None, None, LocalAutonomyOnly, false, None)

  function Asked(r: Request): LeaseConstraints {
    if r.requestedConstraints.Some? then r.requestedConstraints.value else NOTHING_ASKED
  }

  /** All conditions past the replay check but those on the network and the requested constraints. */
  predicate Grounded(s: Service, policy: Policy, r: Request, x: RobotState, cp: Option<ControlPlane>, now: int) {
    && InScope(s, policy, r) && StateGenuine(s, policy, r, x, now) && ControlPlaneMet(s, policy, r, cp, now)
    && RequirementsSane(policy.requirements.network) && NetworkStateSane(x.network)
    && GeofenceGood(policy, x) && OperatorPresent(policy, x)
  }

  predicate NetworkStateSane(n: NetworkState) {
    0.0 <= n.latencyMsP95 && 0.0 <= n.packetLossPct <= 100.0 && 0.0 <= n.uplinkMbps
  }

  // ------------------------------------------------------------- the checks of the service, one by one

  lemma NonBlankExactly(s: string)
    ensures NonBlank(s) <==> !Blank(s)
  {
  }

  lemma BeforeExactly(s: Service, r: Request, x: RobotState, cp: Option<ControlPlane>, now: int)
    ensures RequestGenuine(s, r, x, cp, now) <==> BeforeReplay(s, r, x, cp, now).None?
  {
  }

  lemma ScopeExactly(s: Service, policy: Policy, r: Request, x: RobotState)
    ensures ScopeOutcome(s, policy, r, x).None? <==>
            InScope(s, policy, r) && x.robotId == r.robotId && x.edgeAgentId == r.edgeAgentId
            && x.missionId == r.missionId
  {
  }

  lemma StateExactly(s: Service, policy: Policy, r: Request, x: RobotState, now: int)
    ensures StateGenuine(s, policy, r, x, now) <==>
            StateOutcome(s, policy, x, now).None? && x.robotId == r.robotId && x.edgeAgentId == r.edgeAgentId
            && x.missionId == r.missionId
  {
  }

  lemma ControlPlaneExactly(s: Service, policy: Policy, r: Request, cp: Option<ControlPlane>, now: int)
    ensures ControlPlaneMet(s, policy, r, cp, now) <==> ControlPlaneOutcome(s, policy, r, cp, now).None?
  {
  }

  lemma SiteExactly(policy: Policy, x: RobotState)
    ensures SiteOutcome(policy, x).None? <==>
            RequirementsSane(policy.requirements.network) && NetworkStateSane(x.network)
            && GeofenceGood(policy, x) && OperatorPresent(policy, x)
  {
    if policy.requirements.geofenceId.Some? { NonBlankExactly(policy.requirements.geofenceId.value); }
  }

  lemma GroundedExactly(s: Service, policy: Policy, r: Request, x: RobotState, cp: Option<ControlPlane>, now: int)
    ensures Grounded(s, policy, r, x, cp, now) <==> EarlierOutcome(s, policy, r, x, cp, now).None?
  {
    ScopeExactly(s, policy, r, x);
    StateExactly(s, policy, r, x, now);
    ControlPlaneExactly(s, policy, r, cp, now);
    SiteExactly(policy, x);
  }

  lemma NetworkExactly(policy: Policy, n: NetworkState)
    requires RequirementsSane(policy.requirements.network) && NetworkStateSane(n)
    ensures NetworkGood(policy.requirements.network, n) <==>
            NetworkOutcome(policy.requirements.network, n, policy.fallback).None?
  {
  }

  lemma GrantExactly(policy: Policy, r: Request, x: RobotState)
    ensures Narrows(policy, x, Asked(r)) <==>
            RequestedViolation(BaseConstraints(policy, x), r.requestedConstraints).None?
    ensures Narrows(policy, x, Asked(r)) ==>
            ApplyRequested(BaseConstraints(policy, x), r.requestedConstraints) == Tightest(policy, x, Asked(r))
  {
  }

  /** What is decided past the replay check. */
  lemma DecidedExactly(s: Service, policy: Policy, r: Request, x: RobotState, cp: Option<ControlPlane>, now: int)
    ensures var out := AfterReplay(s, policy, r, x, cp, now);
      && (out.decision.Allow? <==>
          && Grounded(s, policy, r, x, cp, now) && NetworkGood(policy.requirements.network, x.network)
          && Narrows(policy, x, Asked(r)))
      && (out.decision.Allow? ==> out == Outcome(Allow, PolicySatisfied, [], Some(Tightest(policy, x, Asked(r)))))
  {
    GroundedExactly(s, policy, r, x, cp, now);
    if Grounded(s, policy, r, x, cp, now) {
      NetworkExactly(policy, x.network);
      GrantExactly(policy, r, x);
    }
  }

  /**
    The service allows a request exactly when the request is genuine and its nonce unseen, policy,
    states, network and requested constraints meet all conditions; it then grants the tighter of
    the policy's and the requested limit in every field.
   */
  lemma AllowedExactly(
    seen: set<NonceKey>, s: Service, policy: Policy, r: Request, x: RobotState, cp: Option<ControlPlane>, now: int)
    ensures var out := Evaluate(seen, s, policy, r, x, cp, now).1;
      && (out.decision.Allow? <==>
          && RequestGenuine(s, r, x, cp, now) && NonceOf(r) !in seen
          && Grounded(s, policy, r, x, cp, now) && NetworkGood(policy.requirements.network, x.network)
          && Narrows(policy, x, Asked(r)))
      && (out.decision.Allow? ==> out.constraints == Some(Tightest(policy, x, Asked(r))))
  {
    BeforeExactly(s, r, x, cp, now);
    DecidedExactly(s, policy, r, x, cp, now);
  }

  /**
    A nonce is consumed exactly by a genuine request that shows it for the first time, whatever is
    then decided; a request that is not genuine consumes nothing and is denied.
   */
  lemma ConsumedExactly(
    seen: set<NonceKey>, s: Service, policy: Policy, r: Request, x: RobotState, cp: Option<ControlPlane>, now: int)
    ensures var (seen', out) := Evaluate(seen, s, policy, r, x, cp, now);
      && (seen' != seen <==> RequestGenuine(s, r, x, cp, now) && NonceOf(r) !in seen)
      && (seen' != seen ==> seen' == seen + {NonceOf(r)})
      && (seen' == seen ==> out.decision.Deny?)
  {
    BeforeExactly(s, r, x, cp, now);
    if NonceOf(r) !in seen { assert NonceOf(r) in seen + {NonceOf(r)}; }
  }

  // ------------------------------------------------------------- degrading

  /** Connected, and within the limits beyond which the policy denies. */
  predicate NetworkBearable(req: NetworkRequirements, n: NetworkState) {
    && n.attached && (n.profile.Normal? || n.profile.DegradedTeleop? || n.profile.UplinkBad?)
    && n.latencyMsP95 <= req.denyAboveLatencyMsP95 && n.packetLossPct <= req.denyAbovePacketLossPct
    && req.denyBelowUplinkMbps <= n.uplinkMbps
  }

  /** It degrades exactly when all but the network is met and the network is bearable without being good. */
  lemma DegradedExactly(
    seen: set<NonceKey>, s: Service, policy: Policy, r: Request, x: RobotState, cp: Option<ControlPlane>, now: int)
    ensures Evaluate(seen, s, policy, r, x, cp, now).1.decision.Degrade? <==>
            && RequestGenuine(s, r, x, cp, now) && NonceOf(r) !in seen
            && Grounded(s, policy, r, x, cp, now) && NetworkBearable(policy.requirements.network, x.network)
            && !NetworkGood(policy.requirements.network, x.network)
  {
    BeforeExactly(s, r, x, cp, now);
    GroundedExactly(s, policy, r, x, cp, now);
    if Grounded(s, policy, r, x, cp, now) {
      BearableExactly(policy, x.network);
      NetworkExactly(policy, x.network);
    }
  }

  lemma BearableExactly(policy: Policy, n: NetworkState)
    requires RequirementsSane(policy.requirements.network) && NetworkStateSane(n)
    ensures var network := NetworkOutcome(policy.requirements.network, n, policy.fallback);
      NetworkBearable(policy.requirements.network, n) <==> network.None? || network.value.decision.Degrade?
  {
  }

  // ------------------------------------------------------------- answers say why, and offer the right fallback

  predicate Ahead(timestamp: int, now: int) { timestamp > now + SKEW }

  predicate Old(timestamp: int, now: int, maxAgeSeconds: int) { now - timestamp > 1000 * maxAgeSeconds + SKEW }

  /** The first thing that is wrong with the request itself. */
  ghost predicate RequestExplains(
    s: Service, r: Request, x: RobotState, cp: Option<ControlPlane>, now: int, reason: PolicyReason)
  {
    if !r.supportedVersion || !x.supportedVersion || (cp.Some? && !cp.value.supportedVersion)
    then reason == UnsupportedVersion
    else if Ahead(r.createdAt, now) then reason == RequestNotYetValid
    else if now - r.createdAt > 1000 * s.maxRequestAgeSeconds then reason == RequestStale
    else if r.authenticatedAgentId == None then reason == RequestAgentMissing
    else if r.authenticatedAgentId.value != r.requestingAgentId then reason == RequestAgentMismatch
    else if r.requestingAgentId !in s.agentKeys then reason == AgentKeyNotTrusted
    else !s.requestSigned(r, s.agentKeys[r.requestingAgentId]) && reason == RequestSignatureInvalid
  }

  /** The first way in which policy, request and state do not fit. */
  predicate ScopeExplains(s: Service, policy: Policy, r: Request, x: RobotState, reason: PolicyReason) {
    if s.acceptedDigests == {} then reason == PolicyDigestRequired
    else if s.digest(policy) !in s.acceptedDigests then reason == PolicyDigestNotAccepted
    else if r.capability != policy.capability then reason == CapabilityNotCovered
    else if r.requestedDurationSeconds > policy.leaseTtlSeconds then reason == RequestedDurationTooLong
    else if r.requestingAgentId !in policy.requirements.allowedAgents then reason == AgentNotAllowed
    else if r.edgeAgentId !in policy.requirements.allowedEdgeAgents then reason == EdgeAgentNotAllowed
    else if r.robotId !in policy.requirements.allowedRobots then reason == RobotNotAllowed
    else if r.missionId !in policy.requirements.allowedMissions then reason == MissionNotAllowed
    else if x.robotId != r.robotId || x.edgeAgentId != r.edgeAgentId then reason == StateAssertionMismatch
    else x.missionId != r.missionId && reason == MissionStateMismatch
  }

  predicate TimeOff(timestamp: int, now: int, age: int) { Ahead(timestamp, now) || Old(timestamp, now, age) }

  /** The state is not authentic, or else the first of its four times is off. */
  predicate StateExplains(s: Service, policy: Policy, x: RobotState, now: int, reason: PolicyReason) {
    var age := s.maxStateAgeSeconds;
    if !s.stateAuthentic(x, policy.requirements.humanOperatorAvailable) then reason == StateRejected(StateAuthInvalid)
    else if TimeOff(x.createdAt, now, age) then StateTimeExplains(x.createdAt, now, reason)
    else if TimeOff(x.observedAt, now, age) then StateTimeExplains(x.observedAt, now, reason)
    else if TimeOff(x.network.observedAt, now, age) then StateTimeExplains(x.network.observedAt, now, reason)
    else TimeOff(x.geofence.verifiedAt, now, age) && StateTimeExplains(x.geofence.verifiedAt, now, reason)
  }

  predicate StateTimeExplains(timestamp: int, now: int, reason: PolicyReason) {
    reason == StateRejected(if Ahead(timestamp, now) then StateNotYetValid else StateStale)
  }

  /** The first thing that is wrong with the state of a required control plane. */
  predicate ControlPlaneExplains(
    s: Service, policy: Policy, r: Request, cp: Option<ControlPlane>, now: int, reason: PolicyReason)
  {
    && policy.requirements.controlPlaneRequired
    && if cp == None then reason == ControlPlaneStateRequired
       else
         var c, age := cp.value, s.maxStateAgeSeconds;
         if c.robotId != r.robotId || c.edgeAgentId != r.edgeAgentId || c.missionId != r.missionId
         then reason == ControlPlaneStateMismatch
         else if !s.controlPlaneAuthentic(c) then reason == ControlPlaneAuthInvalid
         else if TimeOff(c.createdAt, now, age) then ControlPlaneTimeExplains(c.createdAt, now, reason)
         else if TimeOff(c.observedAt, now, age) then ControlPlaneTimeExplains(c.observedAt, now, reason)
         else
           && policy.requirements.controlPlaneMustBeReachable && reason == ControlPlaneUnreachable
           && (!c.reachable || c.reachability.ReachabilityUnknown? || c.reachability.Partitioned?)
  }

  predicate ControlPlaneTimeExplains(timestamp: int, now: int, reason: PolicyReason) {
    reason == if Ahead(timestamp, now) then ControlPlaneNotYetValid else ControlPlaneStateStale
  }

  /** The first thing that is wrong with policy, network report, geofence or operator. */
  predicate SiteExplains(policy: Policy, x: RobotState, reason: PolicyReason) {
    var req := policy.requirements;
    if !RequirementsSane(req.network) then reason == NetworkRequirementsMalformed
    else if !NetworkStateSane(x.network) then reason == StateNetworkMalformed
    else if req.geofenceRequired && (req.geofenceId == None || !NonBlank(req.geofenceId.value))
    then reason == GeofenceRequirementsMalformed
    else if !GeofenceGood(policy, x) then reason == GeofenceNotSatisfied
    else !OperatorPresent(policy, x) && reason == HumanOperatorNotAvailable
  }

  /** The first thing that is wrong with the network: what denies goes before what degrades. */
  predicate NetworkExplains(req: NetworkRequirements, n: NetworkState, reason: PolicyReason) {
    if n.profile.UnknownProfile? then reason == NetworkDenied(NetworkStateUnknown)
    else if n.profile.Partition? || !n.attached then reason == NetworkDenied(NetworkDetached)
    else if n.latencyMsP95 > req.denyAboveLatencyMsP95 then reason == NetworkDenied(NetworkLatencyTooHigh)
    else if n.packetLossPct > req.denyAbovePacketLossPct then reason == NetworkDenied(NetworkPacketLossTooHigh)
    else if n.uplinkMbps < req.denyBelowUplinkMbps then reason == NetworkDenied(NetworkUplinkTooLow)
    else if n.latencyMsP95 > req.maxLatencyMsP95 then reason == LatencyDegraded
    else if n.packetLossPct > req.maxPacketLossPct then reason == PacketLossDegraded
    else n.uplinkMbps < req.minUplinkMbps && reason == UplinkDegraded
  }

  /** The first requested constraint that the policy refuses. */
  predicate AskedExplains(policy: Policy, x: RobotState, asked: LeaseConstraints, reason: PolicyReason) {
    var net := policy.requirements.network;
    if asked.geofenceId.Some? && asked.geofenceId.value != x.geofence.geofenceId
    then reason == RequestedGeofenceNotAllowed
    else if
      || (asked.maxLatencyMsP95.Some? && asked.maxLatencyMsP95.value > net.maxLatencyMsP95)
      || (asked.maxPacketLossPct.Some? && asked.maxPacketLossPct.value > net.maxPacketLossPct)
      || (asked.minUplinkMbps.Some? && asked.minUplinkMbps.value < net.minUplinkMbps)
    then reason == RequestedConstraintsTooBroad
    else if asked.fallbackGiven && asked.fallbackOnDegrade != policy.fallback.onNetworkDegrade
    then reason == RequestedFallbackConflict
    else !Narrows(policy, x, asked) && reason == RequestedConstraintsTooBroad
  }

  /** The fallback that goes with a reason: of disconnection, of a degraded network, or of denial. */
  function AlternativeFor(policy: Policy, reason: PolicyReason): FallbackAction {
    match reason
    case ControlPlaneUnreachable => policy.fallback.onDisconnect
    case NetworkDenied(NetworkStateUnknown) => policy.fallback.onDisconnect
    case NetworkDenied(NetworkDetached) => policy.fallback.onDisconnect
    case NetworkDenied(_) => policy.fallback.onNetworkDegrade
    case LatencyDegraded => policy.fallback.onNetworkDegrade
    case PacketLossDegraded => policy.fallback.onNetworkDegrade
    case UplinkDegraded => policy.fallback.onNetworkDegrade
    case _ => policy.fallback.onDeny
  }

  /** Policy and request fit, and the state is about the request. */
  predicate Placed(s: Service, policy: Policy, r: Request, x: RobotState) {
    InScope(s, policy, r) && x.robotId == r.robotId && x.edgeAgentId == r.edgeAgentId && x.missionId == r.missionId
  }

  predicate SiteGood(policy: Policy, x: RobotState) {
    && RequirementsSane(policy.requirements.network) && NetworkStateSane(x.network)
    && GeofenceGood(policy, x) && OperatorPresent(policy, x)
  }

  /** Past the nonce the reason is about the first of these that fails. */
  ghost predicate LaterExplains(
    s: Service, policy: Policy, r: Request, x: RobotState, cp: Option<ControlPlane>, now: int, reason: PolicyReason)
  {
    if !Placed(s, policy, r, x) then ScopeExplains(s, policy, r, x, reason)
    else if !StateGenuine(s, policy, r, x, now) then StateExplains(s, policy, x, now, reason)
    else if !ControlPlaneMet(s, policy, r, cp, now) then ControlPlaneExplains(s, policy, r, cp, now, reason)
    else if !SiteGood(policy, x) then SiteExplains(policy, x, reason)
    else if !NetworkGood(policy.requirements.network, x.network) then
      NetworkExplains(policy.requirements.network, x.network, reason)
    else AskedExplains(policy, x, Asked(r), reason)
  }

  /** The reason is a fact about what was shown, and the answer offers the fallback for it and no constraints. */
  ghost predicate Justified(
    seen: set<NonceKey>, s: Service, policy: Policy, r: Request, x: RobotState, cp: Option<ControlPlane>, now: int,
    out: Outcome)
  {
    && out.constraints == None && out.alternatives == [AlternativeFor(policy, out.reason)]
    && if !RequestGenuine(s, r, x, cp, now) then RequestExplains(s, r, x, cp, now, out.reason)
       else if NonceOf(r) in seen then out.reason == RequestReplayed
       else LaterExplains(s, policy, r, x, cp, now, out.reason)
  }

  lemma BeforeReason(s: Service, policy: Policy, r: Request, x: RobotState, cp: Option<ControlPlane>, now: int)
    ensures var before := BeforeReplay(s, r, x, cp, now);
      before.Some? ==>
      RequestExplains(s, r, x, cp, now, before.value) && AlternativeFor(policy, before.value) == policy.fallback.onDeny
  {
  }

  lemma ScopeReason(s: Service, policy: Policy, r: Request, x: RobotState)
    ensures var scope := ScopeOutcome(s, policy, r, x);
      scope.Some? ==>
      ScopeExplains(s, policy, r, x, scope.value) && AlternativeFor(policy, scope.value) == policy.fallback.onDeny
  {
  }

  lemma StateReason(s: Service, policy: Policy, x: RobotState, now: int)
    ensures var state := StateOutcome(s, policy, x, now);
      state.Some? ==>
      StateExplains(s, policy, x, now, state.value) && AlternativeFor(policy, state.value) == policy.fallback.onDeny
  {
  }

  lemma ControlPlaneReason(s: Service, policy: Policy, r: Request, cp: Option<ControlPlane>, now: int)
    ensures var plane := ControlPlaneOutcome(s, policy, r, cp, now);
      plane.Some? ==>
      && ControlPlaneExplains(s, policy, r, cp, now, plane.value)
      && AlternativeFor(policy, plane.value) ==
         (if plane.value == ControlPlaneUnreachable then policy.fallback.onDisconnect else policy.fallback.onDeny)
  {
  }

  lemma SiteReason(policy: Policy, x: RobotState)
    ensures var site := SiteOutcome(policy, x);
      site.Some? ==>
      SiteExplains(policy, x, site.value) && AlternativeFor(policy, site.value) == policy.fallback.onDeny
  {
    if policy.requirements.geofenceId.Some? { NonBlankExactly(policy.requirements.geofenceId.value); }
  }

  lemma EarlierReason(s: Service, policy: Policy, r: Request, x: RobotState, cp: Option<ControlPlane>, now: int)
    ensures var earlier := EarlierOutcome(s, policy, r, x, cp, now);
      earlier.Some? ==>
      && LaterExplains(s, policy, r, x, cp, now, earlier.value)
      && AlternativeFor(policy, earlier.value) ==
         (if earlier.value == ControlPlaneUnreachable then policy.fallback.onDisconnect else policy.fallback.onDeny)
  {
    ScopeExactly(s, policy, r, x);
    StateExactly(s, policy, r, x, now);
    ControlPlaneExactly(s, policy, r, cp, now);
    SiteExactly(policy, x);
    ScopeReason(s, policy, r, x);
    StateReason(s, policy, x, now);
    ControlPlaneReason(s, policy, r, cp, now);
    SiteReason(policy, x);
  }

  lemma NetworkReason(policy: Policy, n: NetworkState)
    ensures var network := NetworkOutcome(policy.requirements.network, n, policy.fallback);
      network.Some? ==> NetworkExplains(policy.requirements.network, n, network.value.reason)
  {
  }

  lemma NetworkAlternative(policy: Policy, n: NetworkState)
    ensures var network := NetworkOutcome(policy.requirements.network, n, policy.fallback);
      network.Some? ==>
      network.value.constraints == None
      && network.value.alternatives == [AlternativeFor(policy, network.value.reason)]
  {
  }

  lemma AskedReason(policy: Policy, r: Request, x: RobotState)
    ensures var asked := RequestedViolation(BaseConstraints(policy, x), r.requestedConstraints);
      asked.Some? ==>
      AskedExplains(policy, x, Asked(r), asked.value) && AlternativeFor(policy, asked.value) == policy.fallback.onDeny
  {
  }

  lemma LaterReason(s: Service, policy: Policy, r: Request, x: RobotState, cp: Option<ControlPlane>, now: int)
    ensures var out := AfterReplay(s, policy, r, x, cp, now);
      !out.decision.Allow? ==>
      && out.constraints == None && out.alternatives == [AlternativeFor(policy, out.reason)]
      && LaterExplains(s, policy, r, x, cp, now, out.reason)
  {
    EarlierReason(s, policy, r, x, cp, now);
    GroundedExactly(s, policy, r, x, cp, now);
    if Grounded(s, policy, r, x, cp, now) {
      NetworkExactly(policy, x.network);
      NetworkReason(policy, x.network);
      NetworkAlternative(policy, x.network);
      AskedReason(policy, r, x);
    }
  }

  /**
    Every answer but ALLOW names the first condition that fails, and offers the fallback that goes
    with it and no constraints.
   */
  lemma AnswerJustified(
    seen: set<NonceKey>, s: Service, policy: Policy, r: Request, x: RobotState, cp: Option<ControlPlane>, now: int)
    ensures var out := Evaluate(seen, s, policy, r, x, cp, now).1;
      !out.decision.Allow? ==> Justified(seen, s, policy, r, x, cp, now, out)
  {
    BeforeExactly(s, r, x, cp, now);
    BeforeReason(s, policy, r, x, cp, now);
    LaterReason(s, policy, r, x, cp, now);
  }
}
