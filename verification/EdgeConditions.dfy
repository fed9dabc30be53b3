/**
  When the Rust verifier allows and when it degrades, told from the fields of the input and of
  the trusted context alone. The conditions are written in positive form and share no check with
  `EdgeVerifier`; `AllowedExactly`, `DegradedExactly` and `VerifyAllowsExactly` are equivalences.
 */
module EdgeConditions {
  import opened Json
  import opened MarkerProtocol
  import opened EdgeVerifier
  import opened MarkerOutcome
  import Laws = EdgeVerifierLaws
  import PayloadBudget

  // ------------------------------------------------------------- shape

  predicate Present(s: string) { exists k :: 0 <= k < |s| && !RustSpace(s[k]) }

  predicate AllPresent(names: seq<string>) { forall k :: 0 <= k < |names| ==> Present(names[k]) }

  predicate LeaseTexts(e: Envelope) {
    && Present(e.alg) && Present(e.signature) && Present(e.claims.protocolVersion) && Present(e.claims.messageId)
    && Present(e.claims.correlationId) && Present(e.claims.messageType) && Present(e.claims.leaseId)
    && Present(e.claims.issuerId) && Present(e.claims.agentId) && Present(e.claims.edgeAgentId)
    && Present(e.claims.robotId) && Present(e.claims.missionId) && Present(e.claims.capability)
    && Present(e.claims.nonce) && Present(e.claims.policyId) && Present(e.claims.policyDigest)
  }

  predicate CommandTexts(c: EdgeCommand) {
    && Present(c.protocolVersion) && Present(c.messageId) && Present(c.correlationId) && Present(c.messageType)
    && Present(c.commandId) && Present(c.agentId) && Present(c.edgeAgentId) && Present(c.robotId)
    && Present(c.missionId) && Present(c.capability) && Present(c.commandNonce)
  }

  predicate OtherTexts(x: LocalContext, t: Trusted) {
    && Present(x.robotId) && Present(x.edgeAgentId) && Present(x.missionId)
    && Present(t.policyId) && Present(t.policyDigest) && Present(t.auditChainHead)
    && Present(t.commandSecret) && Present(t.leaseSecret) && Present(t.stateSecret)
  }

  /** Up to white space around it, the chain head is `sha256:` and something more. */
  ghost predicate HeadGiven(head: string) {
    exists from, to :: TrimmedTo(head, from, to) && to - from > 7 && head[from..from + 7] == "sha256:"
  }

  predicate TrimmedTo(s: string, from: int, to: int) {
    && 0 <= from < to <= |s| && !RustSpace(s[from]) && !RustSpace(s[to - 1])
    && (forall k :: 0 <= k < from ==> RustSpace(s[k])) && (forall k :: to <= k < |s| ==> RustSpace(s[k]))
  }

  predicate OnlyAt(names: seq<string>, name: string, k: int) {
    0 <= k < |names| && names[k] == name && forall m :: 0 <= m < |names| && names[m] == name ==> m == k
  }

  predicate NamedOnce(names: seq<string>, name: string) {
    exists k :: 0 <= k < |names| && OnlyAt(names, name, k)
  }

  predicate ScopesGiven(t: Trusted) {
    && t.issuerScopes != []
    && forall k :: 0 <= k < |t.issuerScopes| ==>
        Present(t.issuerScopes[k].issuerId) && t.issuerScopes[k].capabilities != []
        && AllPresent(t.issuerScopes[k].capabilities)
  }

  predicate PoliciesGiven(t: Trusted) {
    && t.acceptedPolicies != []
    && forall k :: 0 <= k < |t.acceptedPolicies| ==>
        Present(t.acceptedPolicies[k].policyId) && Present(t.acceptedPolicies[k].policyDigest)
  }

  /** What is trusted is complete: every accepted capability has one requirement and one bound. */
  ghost predicate TrustComplete(t: Trusted) {
    && t.acceptedCapabilities != [] && AllPresent(t.acceptedCapabilities) && AllPresent(t.commandAgentIds)
    && HeadGiven(t.auditChainHead) && PoliciesGiven(t) && ScopesGiven(t) && t.requirements != [] && t.bounds != []
    && AllPresent(RequirementNames(t.requirements)) && AllPresent(BoundNames(t.bounds))
    && forall k :: 0 <= k < |t.acceptedCapabilities| ==>
        NamedOnce(RequirementNames(t.requirements), t.acceptedCapabilities[k])
        && NamedOnce(BoundNames(t.bounds), t.acceptedCapabilities[k])
  }

  predicate EnvelopesKnown(i: Input) {
    && i.lease.claims.protocolVersion == "0.0.1-draft" && i.lease.claims.messageType == "capability_lease"
    && i.command.protocolVersion == "0.0.1-draft" && i.command.messageType == "edge_command"
  }

  predicate TimesNonnegative(i: Input, t: Trusted) {
    && 0 <= t.now && 0 < t.maxLeaseTtlMs && 0 < t.maxLeaseAgeMs && 0 < t.maxStateAgeMs && 0 < t.maxCommandAgeMs
    && 0 <= i.lease.claims.issuedAt && 0 <= i.lease.claims.expiresAt && 0 <= i.lease.claims.createdAt
    && (i.lease.claims.notBefore.Just? ==> 0 <= i.lease.claims.notBefore.value)
    && 0 <= i.command.createdAt && 0 <= i.context.observedAt && 0 <= i.context.network.observedAt
    && 0 <= i.context.geofence.verifiedAt
  }

  predicate LimitsSane(latency: Maybe<real>, loss: Maybe<real>, uplink: Maybe<real>, speed: Maybe<real>) {
    && (latency.Just? ==> 0.0 <= latency.value) && (loss.Just? ==> 0.0 <= loss.value <= 100.0)
    && (uplink.Just? ==> 0.0 <= uplink.value) && (speed.Just? ==> 0.0 <= speed.value)
  }

  predicate BoundSane(b: Bounds) {
    && LimitsSane(b.maxLatencyMsP95, b.maxPacketLossPct, b.minUplinkMbps, b.maxSpeedMps)
    && (b.geofenceId.Just? ==> Present(b.geofenceId.value))
    && (b.fallbackOnDegrade.Just? ==> Present(b.fallbackOnDegrade.value))
  }

  predicate MetricsSane(i: Input, t: Trusted) {
    var n, c := i.context.network, i.lease.claims.constraints;
    && 0.0 <= n.latencyMsP95 && 0.0 <= n.packetLossPct <= 100.0 && 0.0 <= n.uplinkMbps
    && LimitsSane(c.maxLatencyMsP95, c.maxPacketLossPct, c.minUplinkMbps, c.maxSpeedMps)
    && forall k :: 0 <= k < |t.bounds| ==> BoundSane(t.bounds[k])
  }

  // ------------------------------------------------------------- command, lease, local state

  const SKEW := 30_000
  const MAX_TIME := 0x7FFF_FFFF_FFFF_FFFF

  /** No older than `maxAge` and the skew, no further ahead than the skew, and the window fits 64 bits. */
  predicate Recent(timestamp: int, now: int, maxAge: int) {
    && now + SKEW <= MAX_TIME && maxAge + SKEW <= MAX_TIME
    && timestamp - SKEW <= now <= timestamp + maxAge + SKEW
  }

  /** Signed by the one trusted agent, and recent. */
  ghost predicate CommandGenuine(env: Environment, c: EdgeCommand, t: Trusted) {
    && Present(c.authenticatedAgentId) && c.authenticatedAgentId == c.agentId && t.commandAgentIds == [c.agentId]
    && c.signature.Just? && Present(c.signature.value) && env.commandSigned(c, c.signature.value, t.commandSecret)
    && Recent(c.createdAt as int, t.now as int, t.maxCommandAgeMs as int)
  }

  predicate PolicyAccepted(l: Claims, t: Trusted) {
    && l.policyId == t.policyId && l.policyDigest == t.policyDigest
    && exists p :: p in t.acceptedPolicies && p.policyId == l.policyId && p.policyDigest == l.policyDigest
  }

  /** Signed by the one trusted issuer, for a capability within its scope, and not revoked. */
  ghost predicate LeaseGenuine(env: Environment, e: Envelope, t: Trusted) {
    && e.alg == "RCLP-DEV-HMAC-SHA256" && t.issuerIds == [e.claims.issuerId]
    && env.leaseSigned(e.claims, e.signature, t.leaseSecret)
    && e.claims.capability in t.acceptedCapabilities && e.claims.leaseId !in t.revocations
    && exists s :: s in t.issuerScopes && s.issuerId == e.claims.issuerId && e.claims.capability in s.capabilities
  }

  predicate LeaseCurrent(l: Claims, t: Trusted) {
    && (l.notBefore.Just? ==> l.notBefore.value <= t.now) && l.issuedAt <= t.now < l.expiresAt
    && l.expiresAt as int <= l.issuedAt as int + t.maxLeaseTtlMs as int
    && t.maxLeaseAgeMs as int + SKEW <= MAX_TIME
    && t.now as int <= l.issuedAt as int + t.maxLeaseAgeMs as int + SKEW
  }

  /** Command, lease and local context speak of one agent, edge, robot, mission and capability. */
  predicate SameSubject(i: Input) {
    var l, c, x := i.lease.claims, i.command, i.context;
    && c.agentId == l.agentId && c.edgeAgentId == l.edgeAgentId && x.edgeAgentId == l.edgeAgentId
    && c.robotId == l.robotId && x.robotId == l.robotId
    && c.missionId == l.missionId && x.missionId == l.missionId && c.capability == l.capability
  }

  /** The lease names what the requirement asks for. */
  predicate NamesRequired(c: Constraints, r: Requirement) {
    && (r.requireGeofenceId ==> c.geofenceId.Just? && Present(c.geofenceId.value))
    && (r.requireNetworkThresholds ==>
        c.maxLatencyMsP95.Just? && c.maxPacketLossPct.Just? && c.minUplinkMbps.Just?)
    && (r.requireFallbackOnDegrade ==> c.fallbackOnDegrade.Just? && Present(c.fallbackOnDegrade.value))
    && (r.requireMaxSpeedMps ==> c.maxSpeedMps.Just?)
  }

  /** Every limit of the lease stays within the bound, and the texts and the action are the bound's. */
  predicate WithinBound(c: Constraints, b: Bounds) {
    && (b.geofenceId.Just? ==> c.geofenceId == b.geofenceId)
    && (c.maxLatencyMsP95.Just? ==> b.maxLatencyMsP95.Just? && c.maxLatencyMsP95.value <= b.maxLatencyMsP95.value)
    && (c.maxPacketLossPct.Just? ==> b.maxPacketLossPct.Just? && c.maxPacketLossPct.value <= b.maxPacketLossPct.value)
    && (c.minUplinkMbps.Just? ==> b.minUplinkMbps.Just? && b.minUplinkMbps.value <= c.minUplinkMbps.value)
    && (c.maxSpeedMps.Just? ==> b.maxSpeedMps.Just? && c.maxSpeedMps.value <= b.maxSpeedMps.value)
    && c.fallbackOnDegrade == b.fallbackOnDegrade
    && (c.networkViolationAction.Just? ==> b.networkViolationAction == c.networkViolationAction)
  }

  predicate LimitsKept(l: Claims, t: Trusted) {
    && (exists r :: r in t.requirements && r.capability == l.capability && NamesRequired(l.constraints, r))
    && (exists b :: b in t.bounds && b.capability == l.capability && WithinBound(l.constraints, b))
  }

  /** Signed by the one trusted edge, and recent in all three observations. */
  ghost predicate StateGenuine(env: Environment, x: LocalContext, t: Trusted) {
    && x.authenticatedEdgeAgentId == Just(x.edgeAgentId) && Present(x.edgeAgentId) && t.stateEdgeIds == [x.edgeAgentId]
    && x.signature.Just? && Present(x.signature.value) && env.contextSigned(x, x.signature.value, t.stateSecret)
    && Recent(x.observedAt as int, t.now as int, t.maxStateAgeMs as int)
    && Recent(x.network.observedAt as int, t.now as int, t.maxStateAgeMs as int)
    && Recent(x.geofence.verifiedAt as int, t.now as int, t.maxStateAgeMs as int)
  }

  predicate InsideFence(c: Constraints, g: GeofenceReport) {
    c.geofenceId.Just? ==> g.inside && g.geofenceId == c.geofenceId.value && Present(g.geofenceId)
  }

  /** The payload asks for no speed but one within the lease's ceiling, and for one if there is a ceiling. */
  predicate SpeedAllowed(numberValue: string -> real, c: Constraints, payload: Json) {
    && payload.Object?
    && (forall f :: f in payload.fields ==>
        (f == "max_speed_mps" || f == "speed_mps")
        && payload.fields[f].Number? && 0.0 <= numberValue(payload.fields[f].text))
    && (forall f, g :: f in payload.fields && g in payload.fields ==>
        payload.fields[f].Number? && payload.fields[g].Number?
        && numberValue(payload.fields[f].text) == numberValue(payload.fields[g].text))
    && (c.maxSpeedMps.Nothing? ==> payload.fields == map[])
    && (c.maxSpeedMps.Just? ==> payload.fields != map[] && forall f :: f in payload.fields ==>
        payload.fields[f].Number? && numberValue(payload.fields[f].text) <= c.maxSpeedMps.value)
  }

  // ------------------------------------------------------------- the network

  predicate Connected(n: NetworkReport) {
    n.attached && (n.profile.Normal? || n.profile.DegradedTeleop? || n.profile.UplinkBad?)
  }

  /** Every threshold that the lease names is met. */
  predicate ThresholdsMet(c: Constraints, n: NetworkReport) {
    && (c.maxLatencyMsP95.Just? ==> n.latencyMsP95 <= c.maxLatencyMsP95.value)
    && (c.maxPacketLossPct.Just? ==> n.packetLossPct <= c.maxPacketLossPct.value)
    && (c.minUplinkMbps.Just? ==> c.minUplinkMbps.value <= n.uplinkMbps)
  }

  // ------------------------------------------------------------- all together

  ghost predicate InputComplete(env: Environment, i: Input, t: Trusted) {
    && LeaseTexts(i.lease) && CommandTexts(i.command) && OtherTexts(i.context, t) && TrustComplete(t)
    && EnvelopesKnown(i) && TimesNonnegative(i, t) && MetricsSane(i, t)
    && !env.textTooLarge(i) && PayloadBudget.WithinBudget(PayloadBudget.RustWeight, i.command.payload)
  }

  /** All conditions but those on the network. */
  ghost predicate Backed(env: Environment, i: Input, t: Trusted) {
    && InputComplete(env, i, t)
    && CommandGenuine(env, i.command, t) && PolicyAccepted(i.lease.claims, t)
    && LeaseGenuine(env, i.lease, t) && LeaseCurrent(i.lease.claims, t)
    && SameSubject(i) && LimitsKept(i.lease.claims, t)
    && StateGenuine(env, i.context, t) && InsideFence(i.lease.claims.constraints, i.context.geofence)
    && SpeedAllowed(env.numberValue, i.lease.claims.constraints, i.command.payload)
  }

  // ------------------------------------------------------------- the checks of the verifier, one by one

  lemma PresentIsNotBlank(s: string)
    ensures Present(s) <==> !RustBlank(s)
  {
  }

  lemma NoneBlank(names: seq<string>)
    ensures AllPresent(names) <==> !AnyBlank(names)
  {
    forall k | 0 <= k < |names| ensures Present(names[k]) <==> !RustBlank(names[k]) { PresentIsNotBlank(names[k]); }
  }

  lemma AllPresentSplits(a: seq<string>, b: seq<string>)
    ensures AllPresent(a + b) <==> AllPresent(a) && AllPresent(b)
  {
    var ab := a + b;
    forall k | 0 <= k < |a| ensures ab[k] == a[k] {}
    forall k | 0 <= k < |b| ensures ab[|a| + k] == b[k] {}
    if AllPresent(ab) {
      forall k | 0 <= k < |b| ensures Present(b[k]) { assert Present(ab[|a| + k]); }
      forall k | 0 <= k < |a| ensures Present(a[k]) { assert Present(ab[k]); }
    }
  }

  function LeaseList(e: Envelope): seq<string> {
    var l := e.claims;
    [ e.alg, e.signature, l.protocolVersion, l.messageId, l.correlationId, l.messageType, l.leaseId,
      l.issuerId, l.agentId, l.edgeAgentId, l.robotId, l.missionId, l.capability, l.nonce, l.policyId, l.policyDigest ]
  }

  function CommandList(c: EdgeCommand): seq<string> {
    [ c.protocolVersion, c.messageId, c.correlationId, c.messageType, c.commandId, c.agentId, c.edgeAgentId, c.robotId,
      c.missionId, c.capability, c.commandNonce ]
  }

  lemma LeaseListPresent(e: Envelope)
    ensures AllPresent(LeaseList(e)) <==> LeaseTexts(e)
  {
    var x := LeaseList(e);
    if AllPresent(x) {
      assert Present(x[0]) && Present(x[1]) && Present(x[2]) && Present(x[3]) && Present(x[4]) && Present(x[5]);
      assert Present(x[6]) && Present(x[7]) && Present(x[8]) && Present(x[9]) && Present(x[10]) && Present(x[11]);
      assert Present(x[12]) && Present(x[13]) && Present(x[14]) && Present(x[15]);
    }
  }

  lemma CommandListPresent(c: EdgeCommand)
    ensures AllPresent(CommandList(c)) <==> CommandTexts(c)
  {
    var x := CommandList(c);
    if AllPresent(x) {
      assert Present(x[0]) && Present(x[1]) && Present(x[2]) && Present(x[3]) && Present(x[4]) && Present(x[5]);
      assert Present(x[6]) && Present(x[7]) && Present(x[8]) && Present(x[9]) && Present(x[10]);
    }
  }

  lemma OtherListPresent(x: LocalContext, t: Trusted)
    ensures AllPresent([x.robotId, x.edgeAgentId, x.missionId]
                       + [t.policyId, t.policyDigest, t.auditChainHead, t.commandSecret, t.leaseSecret, t.stateSecret])
            <==> OtherTexts(x, t)
  {
    var a := [x.robotId, x.edgeAgentId, x.missionId];
    var b := [t.policyId, t.policyDigest, t.auditChainHead, t.commandSecret, t.leaseSecret, t.stateSecret];
    AllPresentSplits(a, b);
    if AllPresent(a) && AllPresent(b) {
      assert Present(a[0]) && Present(a[1]) && Present(a[2]);
      assert Present(b[0]) && Present(b[1]) && Present(b[2]) && Present(b[3]) && Present(b[4]) && Present(b[5]);
    }
  }

  lemma TextsExactly(i: Input, t: Trusted)
    ensures !AnyBlank(RequiredTexts(i, t)) <==> LeaseTexts(i.lease) && CommandTexts(i.command) && OtherTexts(i.context, t)
  {
    var a, b := LeaseList(i.lease), CommandList(i.command);
    var c := [i.context.robotId, i.context.edgeAgentId, i.context.missionId];
    var d := [t.policyId, t.policyDigest, t.auditChainHead, t.commandSecret, t.leaseSecret, t.stateSecret];
    assert RequiredTexts(i, t) == a + (b + (c + d));
    NoneBlank(a + (b + (c + d)));
    AllPresentSplits(a, b + (c + d));
    AllPresentSplits(b, c + d);
    LeaseListPresent(i.lease);
    CommandListPresent(i.command);
    OtherListPresent(i.context, t);
  }

  lemma {:induction false} TrimEndExactly(s: string) returns (n: nat)
    ensures n <= |s| && TrimEnd(s) == s[..n] && (n > 0 ==> !RustSpace(s[n - 1]))
    ensures forall k :: n <= k < |s| ==> RustSpace(s[k])
  {
    if s == [] || !RustSpace(s[|s| - 1]) {
      n := |s|;
      assert s[..n] == s;
    } else {
      n := TrimEndExactly(s[..|s| - 1]);
      assert s[..|s| - 1][..n] == s[..n];
    }
  }

  lemma {:induction false} TrimStartExactly(s: string) returns (n: nat)
    ensures n <= |s| && TrimStart(s) == s[n..] && (n < |s| ==> !RustSpace(s[n]))
    ensures forall k :: 0 <= k < n ==> RustSpace(s[k])
  {
    if s == [] || !RustSpace(s[0]) {
      n := 0;
    } else {
      var m := TrimStartExactly(s[1..]);
      n := m + 1;
      assert s[1..][m..] == s[n..];
      assert forall k :: 1 <= k < n ==> s[k] == s[1..][k - 1];
    }
  }

  lemma TrimmedWhere(head: string) returns (from: nat, to: nat)
    ensures from <= to <= |head| && TrimStart(TrimEnd(head)) == head[from..to]
    ensures from < to ==> TrimmedTo(head, from, to)
  {
    to := TrimEndExactly(head);
    from := TrimStartExactly(head[..to]);
    assert head[..to][from..] == head[from..to];
  }

  lemma TrimmedOneWay(s: string, from: int, to: int, from': int, to': int)
    requires TrimmedTo(s, from, to) && TrimmedTo(s, from', to')
    ensures from == from' && to == to'
  {
  }

  lemma TrimmedToNothing(s: string, from: int, to: int)
    requires TrimmedTo(s, from, to)
    ensures TrimStart(TrimEnd(s)) != []
  {
    var end := TrimEndExactly(s);
    assert end == to;
    var start := TrimStartExactly(s[..to]);
    assert start <= from;
  }

  lemma PrefixOfPart(head: string, from: nat, to: nat)
    requires from + 7 <= to <= |head|
    ensures HASH_PREFIX <= head[from..to] <==> head[from..from + 7] == HASH_PREFIX
  {
    assert head[from..to][..7] == head[from..from + 7];
  }

  lemma HeadExactly(head: string)
    ensures ChainHeadWellFormed(head) <==> HeadGiven(head)
  {
    var from, to := TrimmedWhere(head);
    if ChainHeadWellFormed(head) {
      PrefixOfPart(head, from, to);
    }
    if f, u :| TrimmedTo(head, f, u) && u - f > 7 && head[f..f + 7] == "sha256:" {
      TrimmedToNothing(head, f, u);
      TrimmedOneWay(head, f, u, from, to);
      PrefixOfPart(head, from, to);
    }
  }

  lemma {:induction false} NoOccurrence(names: seq<string>, name: string)
    ensures Occurrences(names, name) == 0 <==> name !in names
  {
    if names != [] {
      NoOccurrence(names[1..], name);
      assert names == [names[0]] + names[1..];
    }
  }

  lemma OnceAtHead(names: seq<string>, name: string)
    requires names != [] && names[0] == name
    ensures NamedOnce(names, name) <==> name !in names[1..]
  {
    if name in names[1..] {
      var k :| 0 <= k < |names[1..]| && names[1..][k] == name;
      assert names[k + 1] == name;
    } else {
      assert forall m :: 1 <= m < |names| ==> names[m] == names[1..][m - 1];
      assert OnlyAt(names, name, 0);
    }
  }

  lemma OnceInTail(names: seq<string>, name: string)
    requires names != [] && names[0] != name
    ensures NamedOnce(names, name) <==> NamedOnce(names[1..], name)
  {
    var rest := names[1..];
    if k :| OnlyAt(names, name, k) {
      assert rest[k - 1] == name;
      forall m | 0 <= m < |rest| && rest[m] == name ensures m == k - 1 { assert names[m + 1] == name; }
      assert OnlyAt(rest, name, k - 1);
    }
    if k :| OnlyAt(rest, name, k) {
      assert names[k + 1] == name;
      forall m | 0 <= m < |names| && names[m] == name ensures m == k + 1 { assert rest[m - 1] == name; }
      assert OnlyAt(names, name, k + 1);
    }
  }

  lemma {:induction false} OccursOnce(names: seq<string>, name: string)
    ensures Occurrences(names, name) == 1 <==> NamedOnce(names, name)
  {
    if names != [] {
      if names[0] == name {
        NoOccurrence(names[1..], name);
        OnceAtHead(names, name);
      } else {
        OccursOnce(names[1..], name);
        OnceInTail(names, name);
      }
    }
  }

  lemma CoversExactly(names: seq<string>, capabilities: seq<string>)
    ensures CoversOnce(names, capabilities) <==>
            forall k :: 0 <= k < |capabilities| ==> NamedOnce(names, capabilities[k])
  {
    forall k | 0 <= k < |capabilities|
      ensures Occurrences(names, capabilities[k]) == 1 <==> NamedOnce(names, capabilities[k])
    {
      OccursOnce(names, capabilities[k]);
    }
  }

  lemma PoliciesExactly(t: Trusted)
    ensures PoliciesGiven(t) <==>
            t.acceptedPolicies != [] && !exists p :: p in t.acceptedPolicies && PolicyBlank(p)
  {
    forall k | 0 <= k < |t.acceptedPolicies|
      ensures t.acceptedPolicies[k] in t.acceptedPolicies
      ensures PolicyBlank(t.acceptedPolicies[k]) <==>
              !(Present(t.acceptedPolicies[k].policyId) && Present(t.acceptedPolicies[k].policyDigest))
    {
      PresentIsNotBlank(t.acceptedPolicies[k].policyId);
      PresentIsNotBlank(t.acceptedPolicies[k].policyDigest);
    }
  }

  lemma ScopesExactly(t: Trusted)
    ensures ScopesGiven(t) <==> t.issuerScopes != [] && !exists s :: s in t.issuerScopes && ScopeBlank(s)
  {
    forall k | 0 <= k < |t.issuerScopes|
      ensures t.issuerScopes[k] in t.issuerScopes
      ensures var s := t.issuerScopes[k];
        ScopeBlank(s) <==> !(Present(s.issuerId) && s.capabilities != [] && AllPresent(s.capabilities))
    {
      PresentIsNotBlank(t.issuerScopes[k].issuerId);
      NoneBlank(t.issuerScopes[k].capabilities);
    }
  }

  lemma TrustExactly(t: Trusted)
    ensures TrustComplete(t) <==> !ScopeMalformed(t)
  {
    HeadExactly(t.auditChainHead);
    PoliciesExactly(t);
    ScopesExactly(t);
    CoversExactly(RequirementNames(t.requirements), t.acceptedCapabilities);
    CoversExactly(BoundNames(t.bounds), t.acceptedCapabilities);
    NoneBlank(t.acceptedCapabilities);
    NoneBlank(t.commandAgentIds);
    NoneBlank(RequirementNames(t.requirements));
    NoneBlank(BoundNames(t.bounds));
  }

  lemma MetricsExactly(i: Input, t: Trusted)
    ensures MetricsSane(i, t) <==> !MetricsMalformed(i, t)
  {
    forall k | 0 <= k < |t.bounds| ensures BoundSane(t.bounds[k]) <==> !BoundsMalformed(t.bounds[k]) {
      if t.bounds[k].geofenceId.Just? { PresentIsNotBlank(t.bounds[k].geofenceId.value); }
      if t.bounds[k].fallbackOnDegrade.Just? { PresentIsNotBlank(t.bounds[k].fallbackOnDegrade.value); }
    }
  }

  lemma TimesExactly(i: Input, t: Trusted)
    ensures TimesNonnegative(i, t) <==> !TimesMalformed(i, t)
    ensures EnvelopesKnown(i) <==> !EnvelopeViolated(i)
  {
  }

  lemma SingletonExactly(names: seq<string>, name: string)
    ensures names == [name] <==> |names| == 1 && name in names
  {
  }

  lemma CommandExactly(env: Environment, i: Input, t: Trusted)
    requires !TimesMalformed(i, t)
    ensures CommandGenuine(env, i.command, t) <==> |t.commandAgentIds| == 1 && CommandAuth(env, i, t).Pass?
  {
    var c := i.command;
    PresentIsNotBlank(c.authenticatedAgentId);
    if c.signature.Just? { PresentIsNotBlank(c.signature.value); }
    SingletonExactly(t.commandAgentIds, c.agentId);
    Laws.TimesExact(i, t);
  }

  lemma PolicyExactly(l: Claims, t: Trusted)
    requires Present(t.policyId) && Present(t.policyDigest) && Present(l.policyId) && Present(l.policyDigest)
    ensures PolicyAccepted(l, t) <==> PolicyDigest(t, l).Pass?
  {
    PresentIsNotBlank(t.policyId);
    PresentIsNotBlank(t.policyDigest);
    if p :| p in t.acceptedPolicies && p.policyId == l.policyId && p.policyDigest == l.policyDigest {
      assert p == PolicyReference(l.policyId, l.policyDigest);
    }
  }

  lemma {:induction false} NothingFound(requirements: seq<Requirement>, bounds: seq<Bounds>, capability: string)
    ensures FindRequirement(requirements, capability).Nothing? ==> capability !in RequirementNames(requirements)
    ensures FindBounds(bounds, capability).Nothing? ==> capability !in BoundNames(bounds)
    decreases |requirements| + |bounds|
  {
    if requirements != [] {
      NothingFound(requirements[1..], bounds, capability);
      assert RequirementNames(requirements) == [requirements[0].capability] + RequirementNames(requirements[1..]);
    }
    if bounds != [] {
      NothingFound(requirements, bounds[1..], capability);
      assert BoundNames(bounds) == [bounds[0].capability] + BoundNames(bounds[1..]);
    }
  }

  /** A requirement or bound named once is the one that a search finds. */
  lemma OnlyRequirement(t: Trusted, capability: string)
    requires NamedOnce(RequirementNames(t.requirements), capability)
    ensures FindRequirement(t.requirements, capability).Just?
    ensures forall r :: r in t.requirements && r.capability == capability ==>
            r == FindRequirement(t.requirements, capability).value
  {
    NothingFound(t.requirements, [], capability);
    var names := RequirementNames(t.requirements);
    var k :| 0 <= k < |names| && OnlyAt(names, capability, k);
    forall r | r in t.requirements && r.capability == capability ensures r == t.requirements[k] {
      var m :| 0 <= m < |t.requirements| && t.requirements[m] == r;
      assert names[m] == capability;
    }
  }

  lemma OnlyBound(t: Trusted, capability: string)
    requires NamedOnce(BoundNames(t.bounds), capability)
    ensures FindBounds(t.bounds, capability).Just?
    ensures forall b :: b in t.bounds && b.capability == capability ==> b == FindBounds(t.bounds, capability).value
  {
    NothingFound([], t.bounds, capability);
    var names := BoundNames(t.bounds);
    var k :| 0 <= k < |names| && OnlyAt(names, capability, k);
    forall b | b in t.bounds && b.capability == capability ensures b == t.bounds[k] {
      var m :| 0 <= m < |t.bounds| && t.bounds[m] == b;
      assert names[m] == capability;
    }
  }

  lemma RequiredExactly(c: Constraints, r: Requirement)
    ensures NamesRequired(c, r) <==> !ConstraintsMissing(c, r)
  {
    if c.geofenceId.Just? { PresentIsNotBlank(c.geofenceId.value); }
    if c.fallbackOnDegrade.Just? { PresentIsNotBlank(c.fallbackOnDegrade.value); }
  }

  lemma BoundExactly(c: Constraints, b: Bounds)
    ensures WithinBound(c, b) <==> !ConstraintsExceed(c, b)
  {
  }

  lemma LimitsExactly(l: Claims, t: Trusted)
    requires NamedOnce(RequirementNames(t.requirements), l.capability) && NamedOnce(BoundNames(t.bounds), l.capability)
    ensures LimitsKept(l, t) <==> Limits(l, t).Pass?
  {
    OnlyRequirement(t, l.capability);
    OnlyBound(t, l.capability);
    RequiredExactly(l.constraints, FindRequirement(t.requirements, l.capability).value);
    BoundExactly(l.constraints, FindBounds(t.bounds, l.capability).value);
  }

  lemma CapabilityExactly(l: Claims, t: Trusted)
    ensures CapabilityAllowed(l, t) <==>
            && l.capability in t.acceptedCapabilities
            && exists s :: s in t.issuerScopes && s.issuerId == l.issuerId && l.capability in s.capabilities
  {
    if s :| s in t.issuerScopes && s.issuerId == l.issuerId && l.capability in s.capabilities {
      var k :| 0 <= k < |t.issuerScopes| && t.issuerScopes[k] == s;
      assert t.issuerScopes[k].issuerId == l.issuerId;
    }
    forall k | 0 <= k < |t.issuerScopes| ensures t.issuerScopes[k] in t.issuerScopes {}
  }

  lemma ContextExactly(i: Input, t: Trusted)
    requires !TimesMalformed(i, t)
    ensures SameSubject(i) <==> Context(i).Pass?
    ensures LeaseCurrent(i.lease.claims, t) <==> LeaseTime(i.lease.claims, t).Pass?
  {
    Laws.TimesExact(i, t);
  }

  /** The checks on the lease, told by their parts. */
  lemma LeaseChecksSplit(env: Environment, i: Input, t: Trusted)
    ensures var l := i.lease.claims;
      LeaseChecks(env, i, t).Pass? <==>
      && l.issuerId in t.issuerIds && env.leaseSigned(l, i.lease.signature, t.leaseSecret) && CapabilityAllowed(l, t)
      && LeaseTime(l, t).Pass? && l.leaseId !in t.revocations && Context(i).Pass? && Limits(l, t).Pass?
  {
  }

  lemma LeaseExactly(env: Environment, i: Input, t: Trusted)
    requires TrustComplete(t) && !TimesMalformed(i, t)
    ensures (LeaseGenuine(env, i.lease, t) && LeaseCurrent(i.lease.claims, t) && SameSubject(i)
             && LimitsKept(i.lease.claims, t)) <==>
            i.lease.alg == HMAC_ALG && |t.issuerIds| == 1 && LeaseChecks(env, i, t).Pass?
  {
    var l := i.lease.claims;
    LeaseChecksSplit(env, i, t);
    SingletonExactly(t.issuerIds, l.issuerId);
    CapabilityExactly(l, t);
    ContextExactly(i, t);
    if l.capability in t.acceptedCapabilities {
      LimitsExactly(l, t);
    }
  }

  lemma StateExactly(env: Environment, i: Input, t: Trusted)
    requires !TimesMalformed(i, t) && Present(i.context.edgeAgentId)
    ensures StateGenuine(env, i.context, t) <==>
            |t.stateEdgeIds| == 1 && StateAuth(env, i.context, t).Pass? && StateTime(i.context, t).Pass?
  {
    var x := i.context;
    PresentIsNotBlank(x.edgeAgentId);
    if x.signature.Just? { PresentIsNotBlank(x.signature.value); }
    SingletonExactly(t.stateEdgeIds, x.edgeAgentId);
    Laws.TimesExact(i, t);
  }

  lemma FenceExactly(c: Constraints, g: GeofenceReport)
    ensures InsideFence(c, g) <==> !GeofenceViolated(c, g)
  {
    PresentIsNotBlank(g.geofenceId);
  }

  lemma NetworkExactly(c: Constraints, n: NetworkReport)
    ensures Network(c, n) == Allow <==> Connected(n) && ThresholdsMet(c, n)
    ensures Network(c, n) == Degrade <==>
            && Connected(n) && !ThresholdsMet(c, n)
            && c.networkViolationAction == Just(DegradeAction)
            && c.fallbackOnDegrade.Just? && c.fallbackOnDegrade.value != ""
  {
  }

  /** The payload fields, one of each name. */
  lemma SpeedExactly(numberValue: string -> real, c: Constraints, payload: Json)
    ensures SpeedAllowed(numberValue, c, payload) <==> PayloadCheck(numberValue, c, payload).Pass?
  {
    if payload.Object? {
      assert payload.fields.Keys <= {"max_speed_mps", "speed_mps"} <==>
             forall f :: f in payload.fields ==> f == "max_speed_mps" || f == "speed_mps";
      assert payload.fields == map[] <==> payload.fields.Keys == {};
    }
  }

  // ------------------------------------------------------------- the verdict

  lemma AdmissionSplit(env: Environment, i: Input, t: Trusted, over: bool)
    ensures Admission(env, i, t, over).Pass? <==>
            && !TextMissing(i, t) && !EnvelopeViolated(i) && !TimesMalformed(i, t) && !MetricsMalformed(i, t)
            && !env.textTooLarge(i) && !over && i.lease.alg == HMAC_ALG
            && |t.issuerIds| == |t.commandAgentIds| == |t.stateEdgeIds| == 1
            && CommandAuth(env, i, t).Pass? && PolicyDigest(t, i.lease.claims).Pass?
  {
  }

  lemma TextExactly(i: Input, t: Trusted)
    requires |t.issuerIds| == |t.commandAgentIds| == |t.stateEdgeIds| == 1
    ensures !TextMissing(i, t) <==>
            LeaseTexts(i.lease) && CommandTexts(i.command) && OtherTexts(i.context, t) && TrustComplete(t)
  {
    TextsExactly(i, t);
    TrustExactly(t);
  }

  lemma ScreeningSplit(env: Environment, i: Input, t: Trusted, over: bool, open: Decision)
    requires !open.Deny?
    ensures Screening(env, i, t, over) == open <==>
            && Admission(env, i, t, over).Pass? && LeaseChecks(env, i, t).Pass?
            && StateAuth(env, i.context, t).Pass? && StateTime(i.context, t).Pass?
            && !GeofenceViolated(i.lease.claims.constraints, i.context.geofence)
            && Network(i.lease.claims.constraints, i.context.network) == open
            && PayloadCheck(env.numberValue, i.lease.claims.constraints, i.command.payload).Pass?
  {
  }

  lemma BackedExactly(env: Environment, i: Input, t: Trusted)
    ensures Backed(env, i, t) <==>
            && Admission(env, i, t, !PayloadBudget.WithinBudget(PayloadBudget.RustWeight, i.command.payload)).Pass?
            && LeaseChecks(env, i, t).Pass? && StateAuth(env, i.context, t).Pass? && StateTime(i.context, t).Pass?
            && !GeofenceViolated(i.lease.claims.constraints, i.context.geofence)
            && PayloadCheck(env.numberValue, i.lease.claims.constraints, i.command.payload).Pass?
  {
    AdmissionSplit(env, i, t, !PayloadBudget.WithinBudget(PayloadBudget.RustWeight, i.command.payload));
    TimesExactly(i, t);
    MetricsExactly(i, t);
    FenceExactly(i.lease.claims.constraints, i.context.geofence);
    SpeedExactly(env.numberValue, i.lease.claims.constraints, i.command.payload);
    if |t.issuerIds| == |t.commandAgentIds| == |t.stateEdgeIds| == 1 { TextExactly(i, t); }
    if InputComplete(env, i, t) {
      CommandExactly(env, i, t);
      PolicyExactly(i.lease.claims, t);
      LeaseExactly(env, i, t);
      StateExactly(env, i, t);
    }
  }

  /** The checks allow exactly when all conditions hold and the network is connected and meets every threshold. */
  lemma AllowedExactly(env: Environment, i: Input, t: Trusted)
    ensures Screened(env, i, t) == Allow <==>
            Backed(env, i, t) && Connected(i.context.network)
            && ThresholdsMet(i.lease.claims.constraints, i.context.network)
  {
    BackedExactly(env, i, t);
    ScreeningSplit(env, i, t, !PayloadBudget.WithinBudget(PayloadBudget.RustWeight, i.command.payload), Allow);
    NetworkExactly(i.lease.claims.constraints, i.context.network);
  }

  /**
    They degrade exactly when all conditions hold and a connected network misses a threshold of
    a lease that names a fallback and asks for degrading; the policy's bound for the capability
    then asks for it as well, with the same fallback.
   */
  lemma DegradedExactly(env: Environment, i: Input, t: Trusted)
    ensures var c := i.lease.claims.constraints;
      Screened(env, i, t) == Degrade <==>
      && Backed(env, i, t) && Connected(i.context.network) && !ThresholdsMet(c, i.context.network)
      && c.networkViolationAction == Just(DegradeAction) && c.fallbackOnDegrade.Just? && c.fallbackOnDegrade.value != ""
    ensures Screened(env, i, t) == Degrade ==>
      exists b :: b in t.bounds && b.capability == i.lease.claims.capability
        && b.networkViolationAction == Just(DegradeAction)
        && b.fallbackOnDegrade == i.lease.claims.constraints.fallbackOnDegrade
  {
    BackedExactly(env, i, t);
    ScreeningSplit(env, i, t, !PayloadBudget.WithinBudget(PayloadBudget.RustWeight, i.command.payload), Degrade);
    NetworkExactly(i.lease.claims.constraints, i.context.network);
  }

  /** The three replay keys of a command, spelled out. */
  function SpelledKeys(i: Input): seq<string> {
    [ "command-id:" + i.command.agentId + ":" + i.command.commandId,
      "command-nonce:" + i.command.agentId + ":" + i.command.commandNonce,
      i.lease.claims.nonce ]
  }

  /**
    `verify` as a whole, whatever the I/O does: it allows exactly when the store is durable, the
    checks allow, the three keys are usable and new, and all eight store operations succeed.
   */
  lemma VerifyAllowsExactly(
    env: Environment, path: string -> string, durable: bool, disk: set<string>, i: Input, t: Trusted, io: nat -> bool)
    ensures VerifyOn(env, path, durable, disk, i, t, io).1 == Allow <==>
            && durable && Backed(env, i, t) && Connected(i.context.network)
            && ThresholdsMet(i.lease.claims.constraints, i.context.network)
            && AllUsable(SpelledKeys(i)) && AllNew(path, disk, SpelledKeys(i)) && forall n: nat :: n < 8 ==> io(n)
  {
    AllowedExactly(env, i, t);
    ConsumedExactly(path, disk, Keys, ReplayKeys(i), io);
    if Backed(env, i, t) { KeysSpelled(env, i, t); }
  }

  lemma KeysSpelled(env: Environment, i: Input, t: Trusted)
    requires CommandGenuine(env, i.command, t)
    ensures ReplayKeys(i) == SpelledKeys(i)
  {
  }
}
