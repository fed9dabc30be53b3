/** The policy service: request checks, nonce consumption, network evaluation and the constraints it grants. */
module Policy {
  import opened Core
  import opened Leases
  import opened Conformance

  datatype Decision = Allow | Degrade | Deny

  datatype PolicyReason =
    | UnsupportedVersion | RequestNotYetValid | RequestStale
    | RequestAgentMissing | RequestAgentMismatch | AgentKeyNotTrusted | RequestSignatureInvalid
    | RequestReplayed
    | PolicyDigestRequired | PolicyDigestNotAccepted | CapabilityNotCovered | RequestedDurationTooLong
    | AgentNotAllowed | EdgeAgentNotAllowed | RobotNotAllowed | MissionNotAllowed
    | StateAssertionMismatch | MissionStateMismatch | StateRejected(reason: Reason)
    | ControlPlaneStateRequired | ControlPlaneStateMismatch | ControlPlaneAuthInvalid
    | ControlPlaneNotYetValid | ControlPlaneStateStale | ControlPlaneUnreachable
    | NetworkRequirementsMalformed | StateNetworkMalformed | GeofenceRequirementsMalformed
    | GeofenceNotSatisfied | HumanOperatorNotAvailable
    | NetworkDenied(reason: Reason) | LatencyDegraded | PacketLossDegraded | UplinkDegraded
    | RequestedGeofenceNotAllowed | RequestedConstraintsTooBroad | RequestedFallbackConflict
    | PolicySatisfied

  datatype NetworkRequirements = NetworkRequirements(
    maxLatencyMsP95: real, maxPacketLossPct: real, minUplinkMbps: real,
    denyAboveLatencyMsP95: real, denyAbovePacketLossPct: real, denyBelowUplinkMbps: real)

  datatype PolicyRequirements = PolicyRequirements(
    allowedAgents: seq<string>, allowedEdgeAgents: seq<string>, allowedRobots: seq<string>, allowedMissions: seq<string>,
    maxSpeedMps: Option<real>, geofenceRequired: bool, geofenceId: Option<string>, geofenceAllowed: bool,
    humanOperatorAvailable: bool, controlPlaneRequired: bool, controlPlaneMustBeReachable: bool,
    network: NetworkRequirements)

  datatype FallbackPolicy = FallbackPolicy(
    onDeny: FallbackAction, onNetworkDegrade: FallbackAction, onDisconnect: FallbackAction)

  datatype Policy = Policy(
    policyId: string, capability: Capability, leaseTtlSeconds: int, requirements: PolicyRequirements,
    fallback: FallbackPolicy)

  datatype Request = Request(
    supportedVersion: bool, messageId: string, correlationId: string, createdAt: int, requestingAgentId: string,
    authenticatedAgentId: Option<string>, edgeAgentId: string, robotId: string, missionId: string,
    capability: Capability, requestedDurationSeconds: int, requestedConstraints: Option<LeaseConstraints>,
    requestNonce: string)

  datatype Reachability = ReachabilityUnknown | Reachable | ReachabilityDegraded | Partitioned

  datatype ControlPlane = ControlPlane(
    supportedVersion: bool, createdAt: int, observedAt: int, edgeAgentId: string, robotId: string, missionId: string,
    reachability: Reachability, reachable: bool)

  /** Keys, accepted digests and age limits of a policy service, and the checks left abstract. */
  datatype Service = Service(
    agentKeys: map<string, string>, acceptedDigests: set<string>, digest: Policy -> string,
    maxRequestAgeSeconds: int, maxStateAgeSeconds: int,
    requestSigned: (Request, string) -> bool,
    stateAuthentic: (RobotState, bool) -> bool,
    controlPlaneAuthentic: ControlPlane -> bool)

  datatype Outcome = Outcome(
    decision: Decision, reason: PolicyReason, alternatives: seq<FallbackAction>, constraints: Option<LeaseConstraints>)

  /** The validators of the policy model. */
  predicate ValidPolicy(p: Policy) {
    && p.leaseTtlSeconds > 0
    && !NetworkMalformed(p.requirements.network)
    && (p.requirements.maxSpeedMps.Some? ==> p.requirements.maxSpeedMps.value >= 0.0)
    && (p.requirements.geofenceRequired ==> p.requirements.geofenceId.Some?)
    && (p.requirements.geofenceId.Some? ==> !Blank(p.requirements.geofenceId.value))
  }

  predicate ValidRequest(r: Request) {
    && r.requestedDurationSeconds > 0
    && (r.requestedConstraints.Some? ==> ConstraintsWellFormed(r.requestedConstraints.value))
  }

  predicate NetworkMalformed(n: NetworkRequirements) {
    || n.maxLatencyMsP95 < 0.0 || n.maxPacketLossPct < 0.0 || n.maxPacketLossPct > 100.0 || n.minUplinkMbps < 0.0
    || n.denyAboveLatencyMsP95 < 0.0 || n.denyAbovePacketLossPct < 0.0 || n.denyAbovePacketLossPct > 100.0
    || n.denyBelowUplinkMbps < 0.0
    || n.denyAboveLatencyMsP95 < n.maxLatencyMsP95
    || n.denyAbovePacketLossPct < n.maxPacketLossPct
    || n.denyBelowUplinkMbps > n.minUplinkMbps
  }

  // ------------------------------------------------------------- network evaluation

  function Denied(reason: PolicyReason, alternative: FallbackAction): Outcome {
    Outcome(Deny, reason, [alternative], None)
  }

  function Degraded(reason: PolicyReason, alternative: FallbackAction): Outcome {
    Outcome(Degrade, reason, [alternative], None)
  }

  /** `_evaluate_network_requirements`; `None` means that the network meets the policy. */
  function NetworkOutcome(req: NetworkRequirements, net: NetworkState, fallback: FallbackPolicy): Option<Outcome> {
    if AuthorityViolation(net).Invalid?
    then Some(Denied(NetworkDenied(AuthorityViolation(net).reason), fallback.onDisconnect))
    else if net.latencyMsP95 > req.denyAboveLatencyMsP95
    then Some(Denied(NetworkDenied(NetworkLatencyTooHigh), fallback.onNetworkDegrade))
    else if net.packetLossPct > req.denyAbovePacketLossPct
    then Some(Denied(NetworkDenied(NetworkPacketLossTooHigh), fallback.onNetworkDegrade))
    else if net.uplinkMbps < req.denyBelowUplinkMbps
    then Some(Denied(NetworkDenied(NetworkUplinkTooLow), fallback.onNetworkDegrade))
    else if net.latencyMsP95 > req.maxLatencyMsP95 then Some(Degraded(LatencyDegraded, fallback.onNetworkDegrade))
    else if net.packetLossPct > req.maxPacketLossPct then Some(Degraded(PacketLossDegraded, fallback.onNetworkDegrade))
    else if net.uplinkMbps < req.minUplinkMbps then Some(Degraded(UplinkDegraded, fallback.onNetworkDegrade))
    else None
  }

  // ------------------------------------------------------------- constraints

  /** The constraints the policy itself grants in a state. */
  function BaseConstraints(policy: Policy, state: RobotState): LeaseConstraints {
    var net := policy.requirements.network;
    LeaseConstraints(
      Some(state.geofence.geofenceId), Some(net.maxLatencyMsP95), Some(net.maxPacketLossPct), Some(net.minUplinkMbps),
      policy.fallback.onNetworkDegrade, true, policy.requirements.maxSpeedMps)
  }

  function RequestedViolation(base: LeaseConstraints, requested: Option<LeaseConstraints>): Option<PolicyReason> {
    if requested.None? then None
    else
      var r := requested.value;
      if r.geofenceId.Some? && r.geofenceId != base.geofenceId then Some(RequestedGeofenceNotAllowed)
      else if MaxExceeds(r.maxLatencyMsP95, base.maxLatencyMsP95) then Some(RequestedConstraintsTooBroad)
      else if MaxExceeds(r.maxPacketLossPct, base.maxPacketLossPct) then Some(RequestedConstraintsTooBroad)
      else if MinExceeds(r.minUplinkMbps, base.minUplinkMbps) then Some(RequestedConstraintsTooBroad)
      else if r.fallbackGiven && r.fallbackOnDegrade != base.fallbackOnDegrade then Some(RequestedFallbackConflict)
      else if MaxExceeds(r.maxSpeedMps, base.maxSpeedMps) then Some(RequestedConstraintsTooBroad)
      else None
  }

  function Override<T>(base: Option<T>, requested: Option<T>): Option<T> {
    if requested.Some? then requested else base
  }

  function ApplyRequested(base: LeaseConstraints, requested: Option<LeaseConstraints>): LeaseConstraints {
    if requested.None? then base
    else
      var r := requested.value;
      LeaseConstraints(
        Override(base.geofenceId, r.geofenceId),
        Override(base.maxLatencyMsP95, r.maxLatencyMsP95),
        Override(base.maxPacketLossPct, r.maxPacketLossPct),
        Override(base.minUplinkMbps, r.minUplinkMbps),
        if r.fallbackGiven then r.fallbackOnDegrade else base.fallbackOnDegrade,
        base.fallbackGiven || r.fallbackGiven,
        Override(base.maxSpeedMps, r.maxSpeedMps))
  }

  /** The bounds a gate configures for a policy. */
  function PolicyBounds(policy: Policy): Bounds {
    var req := policy.requirements;
    Bounds(
      policy.capability, if req.geofenceRequired then req.geofenceId else None,
      Some(req.network.maxLatencyMsP95), Some(req.network.maxPacketLossPct), Some(req.network.minUplinkMbps),
      Some(policy.fallback.onNetworkDegrade), req.maxSpeedMps)
  }

  // ------------------------------------------------------------- the decision

  /** The checks made before the nonce is consumed. */
  function BeforeReplay(s: Service, request: Request, state: RobotState, cp: Option<ControlPlane>, now: int)
    : Option<PolicyReason>
  {
    if !request.supportedVersion || !state.supportedVersion || (cp.Some? && !cp.value.supportedVersion)
    then Some(UnsupportedVersion)
    else if request.createdAt > now + CLOCK_SKEW_MS then Some(RequestNotYetValid)
    else if now - request.createdAt > Ms(s.maxRequestAgeSeconds) then Some(RequestStale)
    else if request.authenticatedAgentId.None? then Some(RequestAgentMissing)
    else if request.authenticatedAgentId.value != request.requestingAgentId then Some(RequestAgentMismatch)
    else if request.requestingAgentId !in s.agentKeys then Some(AgentKeyNotTrusted)
    else if !s.requestSigned(request, s.agentKeys[request.requestingAgentId]) then Some(RequestSignatureInvalid)
    else None
  }

  function ScopeOutcome(s: Service, policy: Policy, request: Request, state: RobotState): Option<PolicyReason> {
    var req := policy.requirements;
    if s.acceptedDigests == {} then Some(PolicyDigestRequired)
    else if s.digest(policy) !in s.acceptedDigests then Some(PolicyDigestNotAccepted)
    else if request.capability != policy.capability then Some(CapabilityNotCovered)
    else if request.requestedDurationSeconds > policy.leaseTtlSeconds then Some(RequestedDurationTooLong)
    else if request.requestingAgentId !in req.allowedAgents then Some(AgentNotAllowed)
    else if request.edgeAgentId !in req.allowedEdgeAgents then Some(EdgeAgentNotAllowed)
    else if request.robotId !in req.allowedRobots then Some(RobotNotAllowed)
    else if request.missionId !in req.allowedMissions then Some(MissionNotAllowed)
    else if state.robotId != request.robotId || state.edgeAgentId != request.edgeAgentId then Some(StateAssertionMismatch)
    else if state.missionId != request.missionId then Some(MissionStateMismatch)
    else None
  }

  function StateOutcome(s: Service, policy: Policy, state: RobotState, now: int): Option<PolicyReason> {
    var time := StateTimeViolation(state, now, s.maxStateAgeSeconds);
    if !s.stateAuthentic(state, policy.requirements.humanOperatorAvailable) then Some(StateRejected(StateAuthInvalid))
    else if time.Invalid? then Some(StateRejected(time.reason))
    else None
  }

  function ControlPlaneTime(timestamp: int, now: int, maxAgeSeconds: int): Option<PolicyReason> {
    if timestamp > now + CLOCK_SKEW_MS then Some(ControlPlaneNotYetValid)
    else if now - timestamp > Ms(maxAgeSeconds) + CLOCK_SKEW_MS then Some(ControlPlaneStateStale)
    else None
  }

  function ControlPlaneOutcome(s: Service, policy: Policy, request: Request, cp: Option<ControlPlane>, now: int)
    : Option<PolicyReason>
  {
    var req := policy.requirements;
    if !req.controlPlaneRequired then None
    else if cp.None? then Some(ControlPlaneStateRequired)
    else
      var c := cp.value;
      if c.robotId != request.robotId || c.edgeAgentId != request.edgeAgentId || c.missionId != request.missionId
      then Some(ControlPlaneStateMismatch)
      else if !s.controlPlaneAuthentic(c) then Some(ControlPlaneAuthInvalid)
      else if ControlPlaneTime(c.createdAt, now, s.maxStateAgeSeconds).Some?
      then ControlPlaneTime(c.createdAt, now, s.maxStateAgeSeconds)
      else if ControlPlaneTime(c.observedAt, now, s.maxStateAgeSeconds).Some?
      then ControlPlaneTime(c.observedAt, now, s.maxStateAgeSeconds)
      else if req.controlPlaneMustBeReachable
        && (c.reachability.ReachabilityUnknown? || c.reachability.Partitioned? || !c.reachable)
      then Some(ControlPlaneUnreachable)
      else None
  }

  function SiteOutcome(policy: Policy, state: RobotState): Option<PolicyReason> {
    var req := policy.requirements;
    if NetworkMalformed(req.network) then Some(NetworkRequirementsMalformed)
    else if !NetworkStateWellFormed(state.network) then Some(StateNetworkMalformed)
    else if req.geofenceRequired && (req.geofenceId.None? || Blank(req.geofenceId.value))
    then Some(GeofenceRequirementsMalformed)
    else if req.geofenceRequired
      && (state.geofence.geofenceId != req.geofenceId.value || state.geofence.inside != req.geofenceAllowed)
    then Some(GeofenceNotSatisfied)
    else if req.humanOperatorAvailable && !state.humanOperatorAvailable then Some(HumanOperatorNotAvailable)
    else None
  }

  /** Everything between the nonce and the network evaluation. */
  function EarlierOutcome(
    s: Service, policy: Policy, request: Request, state: RobotState, cp: Option<ControlPlane>, now: int)
    : Option<PolicyReason>
  {
    if ScopeOutcome(s, policy, request, state).Some? then ScopeOutcome(s, policy, request, state)
    else if StateOutcome(s, policy, state, now).Some? then StateOutcome(s, policy, state, now)
    else if ControlPlaneOutcome(s, policy, request, cp, now).Some? then ControlPlaneOutcome(s, policy, request, cp, now)
    else SiteOutcome(policy, state)
  }

  /** The decision once the nonce has been consumed. */
  function AfterReplay(
    s: Service, policy: Policy, request: Request, state: RobotState, cp: Option<ControlPlane>, now: int): Outcome
  {
    var earlier := EarlierOutcome(s, policy, request, state, cp, now);
    if earlier == Some(ControlPlaneUnreachable) then Denied(ControlPlaneUnreachable, policy.fallback.onDisconnect)
    else if earlier.Some? then Denied(earlier.value, policy.fallback.onDeny)
    else
      var network := NetworkOutcome(policy.requirements.network, state.network, policy.fallback);
      if network.Some? then network.value
      else
        var base := BaseConstraints(policy, state);
        var requested := RequestedViolation(base, request.requestedConstraints);
        if requested.Some? then Denied(requested.value, policy.fallback.onDeny)
        else Outcome(Allow, PolicySatisfied, [], Some(ApplyRequested(base, request.requestedConstraints)))
  }

  // ------------------------------------------------------------- nonces

  datatype NonceKey = NonceKey(agentId: string, nonce: string)

  function KeyOf(request: Request): NonceKey {
    NonceKey(request.requestingAgentId, request.requestNonce)
  }

  /** `_evaluate_policy_inputs` over a durable nonce table. */
  function Evaluate(
    seen: set<NonceKey>, s: Service, policy: Policy, request: Request, state: RobotState, cp: Option<ControlPlane>,
    now: int): (set<NonceKey>, Outcome)
  {
    var before := BeforeReplay(s, request, state, cp, now);
    if before.Some? then (seen, Denied(before.value, policy.fallback.onDeny))
    else if KeyOf(request) in seen then (seen, Denied(RequestReplayed, policy.fallback.onDeny))
    else (seen + {KeyOf(request)}, AfterReplay(s, policy, request, state, cp, now))
  }

  class RequestReplayCache {
    var seen: set<NonceKey>

    constructor (stored: set<NonceKey>)
      ensures seen == stored
    {
      seen := stored;
    }

    /** Insert-or-fail: one atomic transaction. */
    method Consume(request: Request) returns (ok: bool)
      modifies this
      ensures ok <==> KeyOf(request) !in old(seen)
      ensures seen == old(seen) + {KeyOf(request)}
    {
      ok := KeyOf(request) !in seen;
      if ok {
        seen := seen + {KeyOf(request)};
      }
    }

    method EvaluateInputs(
      s: Service, policy: Policy, request: Request, state: RobotState, cp: Option<ControlPlane>, now: int)
      returns (outcome: Outcome)
      modifies this
      ensures (seen, outcome) == Evaluate(old(seen), s, policy, request, state, cp, now)
    {
      var before := BeforeReplay(s, request, state, cp, now);
      if before.Some? {
        return Denied(before.value, policy.fallback.onDeny);
      }
      var ok := Consume(request);
      if !ok {
        assert seen == old(seen);
        return Denied(RequestReplayed, policy.fallback.onDeny);
      }
      return AfterReplay(s, policy, request, state, cp, now);
    }
  }

  // ------------------------------------------------------------- runs

  /** One evaluation; every service may have its own configuration, all share one nonce table. */
  datatype Evaluation = Evaluation(
    service: Service, policy: Policy, request: Request, state: RobotState, cp: Option<ControlPlane>, now: int)

  /** A decision taken past the replay check. */
  datatype Past = Past(key: NonceKey, decision: Decision)

  function PastCheck(seen: set<NonceKey>, e: Evaluation): bool {
    BeforeReplay(e.service, e.request, e.state, e.cp, e.now).None? && KeyOf(e.request) !in seen
  }

  function Decide(seen: set<NonceKey>, e: Evaluation): (set<NonceKey>, Outcome) {
    Evaluate(seen, e.service, e.policy, e.request, e.state, e.cp, e.now)
  }

  /** The decisions past the replay check, in the order in which the nonces were consumed. */
  function PastDecisions(seen: set<NonceKey>, run: seq<Evaluation>): seq<Past>
    decreases |run|
  {
    if run == [] then []
    else
      var (seen', outcome) := Decide(seen, run[0]);
      (if PastCheck(seen, run[0]) then [Past(KeyOf(run[0].request), outcome.decision)] else [])
      + PastDecisions(seen', run[1..])
  }

  lemma {:induction false} PastKeysAreFresh(seen: set<NonceKey>, run: seq<Evaluation>, i: nat)
    requires i < |PastDecisions(seen, run)|
    ensures PastDecisions(seen, run)[i].key !in seen
    decreases |run|
  {
    var (seen', outcome) := Decide(seen, run[0]);
    var head := if PastCheck(seen, run[0]) then 1 else 0;
    if i >= head {
      PastKeysAreFresh(seen', run[1..], i - head);
    }
  }

  /** Over every run, an agent's nonce reaches at most one decision past the replay check. */
  lemma {:induction false} NonceFinality(seen: set<NonceKey>, run: seq<Evaluation>, i: nat, j: nat)
    requires i < j < |PastDecisions(seen, run)|
    ensures PastDecisions(seen, run)[i].key != PastDecisions(seen, run)[j].key
    decreases |run|
  {
    var (seen', outcome) := Decide(seen, run[0]);
    if PastCheck(seen, run[0]) {
      if i == 0 {
        PastKeysAreFresh(seen', run[1..], j - 1);
      } else {
        NonceFinality(seen', run[1..], i - 1, j - 1);
      }
    } else {
      NonceFinality(seen', run[1..], i, j);
    }
  }

  function SeenAfter(seen: set<NonceKey>, run: seq<Evaluation>): set<NonceKey>
    decreases |run|
  {
    if run == [] then seen else SeenAfter(Decide(seen, run[0]).0, run[1..])
  }

  /** A nonce refused past the replay check can never be allowed later, whoever presents it. */
  lemma RefusedNeverAllowed(seen: set<NonceKey>, refused: Evaluation, run: seq<Evaluation>, later: Evaluation)
    requires PastCheck(seen, refused) && KeyOf(later.request) == KeyOf(refused.request)
    ensures !Decide(SeenAfter(Decide(seen, refused).0, run), later).1.decision.Allow?
  {
    SeenGrows(Decide(seen, refused).0, run);
  }

  lemma {:induction false} SeenGrows(seen: set<NonceKey>, run: seq<Evaluation>)
    ensures seen <= SeenAfter(seen, run)
    decreases |run|
  {
    if run != [] {
      SeenGrows(Decide(seen, run[0]).0, run[1..]);
    }
  }

  // ------------------------------------------------------------- worse networks

  function Rank(d: Decision): nat {
    match d case Allow => 2 case Degrade => 1 case Deny => 0
  }

  function NetworkRank(policy: Policy, net: NetworkState): nat {
    var network := NetworkOutcome(policy.requirements.network, net, policy.fallback);
    if network.None? then 2 else Rank(network.value.decision)
  }

  /** The network evaluation itself is monotone. */
  lemma NetworkRankMonotone(policy: Policy, worse: NetworkState, better: NetworkState)
    requires NoBetter(worse, better)
    ensures NetworkRank(policy, worse) <= NetworkRank(policy, better)
  {
  }

  predicate SameStanding(s: Service, policy: Policy, state: RobotState, better: NetworkState) {
    var human := policy.requirements.humanOperatorAvailable;
    s.stateAuthentic(state.(network := better), human) == s.stateAuthentic(state, human)
  }

  /**
    The whole decision is monotone exactly when it is not the case that the better network
    lifts a degraded request past the network evaluation onto a requested constraint the
    policy refuses: there `degrade` turns into `deny`.
   */
  lemma WorseNetworkGainsExactly(
    s: Service, policy: Policy, request: Request, state: RobotState, better: NetworkState, cp: Option<ControlPlane>, now: int)
    requires NoBetter(state.network, better)
    requires NetworkStateWellFormed(state.network) && NetworkStateWellFormed(better)
    requires SameStanding(s, policy, state, better)
    ensures
      (Rank(AfterReplay(s, policy, request, state, cp, now).decision)
       <= Rank(AfterReplay(s, policy, request, state.(network := better), cp, now).decision))
      <==>
      (|| EarlierOutcome(s, policy, request, state, cp, now).Some?
       || RequestedViolation(BaseConstraints(policy, state), request.requestedConstraints).None?
       || NetworkRank(policy, better) != 2
       || NetworkRank(policy, state.network) != 1)
  {
    NetworkRankMonotone(policy, state.network, better);
    var state' := state.(network := better);
    assert BaseConstraints(policy, state') == BaseConstraints(policy, state);
    assert StateTimeViolation(state', now, s.maxStateAgeSeconds) == StateTimeViolation(state, now, s.maxStateAgeSeconds);
    assert EarlierOutcome(s, policy, request, state', cp, now) == EarlierOutcome(s, policy, request, state, cp, now);
  }

  function SampleState(latency: real): RobotState {
    RobotState("m", true, 0, 0, "r", "e", "n",
      NetworkState(Normal, true, latency, 0.0, 10.0, 0), GeofenceState("g", true, 0), true)
  }

  const SAMPLE_NETWORK := NetworkRequirements(80.0, 1.0, 3.0, 250.0, 10.0, 0.8)

  function SamplePolicy(): Policy {
    Policy("p", RemoteAssist, 600,
      PolicyRequirements(["a"], ["e"], ["r"], ["n"], None, false, None, true, true, false, true, SAMPLE_NETWORK),
      FallbackPolicy(LocalAutonomyOnly, CrawlToSafeZone, LocalAutonomyOnly))
  }

  /** A request for more latency than the policy offers. */
  function SampleRequest(): Request {
    Request(true, "q", "c", 0, "a", Some("a"), "e", "r", "n", RemoteAssist, 600,
      Some(LeaseConstraints(None, Some(200.0), None, None, LocalAutonomyOnly, false, None)), "x")
  }

  ghost function SampleService(): Service {
    Service(map[], {"d"}, (p: Policy) => "d", 300, 30, (r: Request, k: string) => true,
      (st: RobotState, h: bool) => true, (c: ControlPlane) => true)
  }

  lemma SampleReachesNetwork(latency: real)
    requires latency >= 0.0
    ensures EarlierOutcome(SampleService(), SamplePolicy(), SampleRequest(), SampleState(latency), None, 0).None?
  {
    assert ScopeOutcome(SampleService(), SamplePolicy(), SampleRequest(), SampleState(latency)).None?;
    assert StateOutcome(SampleService(), SamplePolicy(), SampleState(latency), 0).None?;
    assert SiteOutcome(SamplePolicy(), SampleState(latency)).None?;
  }

  lemma SampleOutcomes()
    ensures NetworkRank(SamplePolicy(), SampleState(100.0).network) == 1
    ensures NetworkRank(SamplePolicy(), SampleState(10.0).network) == 2
    ensures var base := BaseConstraints(SamplePolicy(), SampleState(10.0));
      RequestedViolation(base, SampleRequest().requestedConstraints).Some?
    ensures ValidPolicy(SamplePolicy()) && ValidRequest(SampleRequest())
  {
  }

  /** A degraded network is answered with `degrade`, a good one with `deny`. */
  lemma WorseNetworkCanGain()
    ensures exists s: Service, policy, request ::
      && ValidPolicy(policy) && ValidRequest(request)
      && AfterReplay(s, policy, request, SampleState(100.0), None, 0).decision.Degrade?
      && AfterReplay(s, policy, request, SampleState(10.0), None, 0).decision.Deny?
  {
    SampleReachesNetwork(100.0);
    SampleReachesNetwork(10.0);
    SampleOutcomes();
    var s, policy, request := SampleService(), SamplePolicy(), SampleRequest();
    assert AfterReplay(s, policy, request, SampleState(100.0), None, 0).decision.Degrade?;
    assert AfterReplay(s, policy, request, SampleState(10.0), None, 0).decision.Deny?;
  }
}
