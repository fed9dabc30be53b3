/** Every denial of the Rust verifier names the first condition that fails, told as in `EdgeConditions`. */
module EdgeDenials {
  import opened Json
  import opened MarkerProtocol
  import opened EdgeVerifier
  import opened EdgeConditions
  import PayloadBudget

  predicate Ahead(timestamp: int, now: int) { timestamp > now + SKEW }

  predicate Old(timestamp: int, now: int, maxAge: int) { now - timestamp > maxAge + SKEW }

  /** A text, a name, a time or a number of the input or of what is trusted is missing or off. */
  ghost predicate ShapeMalformed(i: Input, t: Trusted) {
    || !LeaseTexts(i.lease) || !CommandTexts(i.command) || !OtherTexts(i.context, t) || !TrustComplete(t)
    || t.issuerIds == [] || t.stateEdgeIds == [] || t.commandAgentIds == []
    || !EnvelopesKnown(i) || !TimesNonnegative(i, t) || !MetricsSane(i, t)
  }

  /** The age limit or the present time is too large for 64 bits once the skew is added. */
  predicate WindowTooLarge(now: int, maxAge: int) { now + SKEW > MAX_TIME || maxAge + SKEW > MAX_TIME }

  /** The first thing that is wrong with the command. */
  ghost predicate CommandExplains(env: Environment, c: EdgeCommand, t: Trusted, reason: Denial) {
    if !Present(c.authenticatedAgentId) then reason == CommandAgentMissing
    else if c.authenticatedAgentId != c.agentId then reason == CommandAgentMismatch
    else if c.authenticatedAgentId !in t.commandAgentIds then reason == CommandAgentNotTrusted
    else if c.signature == Nothing || !Present(c.signature.value) then reason == CommandSignatureMissing
    else if !env.commandSigned(c, c.signature.value, t.commandSecret) then reason == InvalidCommandSignature
    else if WindowTooLarge(t.now as int, t.maxCommandAgeMs as int) then reason == MalformedInput
    else if Ahead(c.createdAt as int, t.now as int) then reason == CommandNotYetValid
    else Old(c.createdAt as int, t.now as int, t.maxCommandAgeMs as int) && reason == StaleCommand
  }

  /** A policy that is not accepted goes before everything that is wrong with the command. */
  ghost predicate AdmissionExplains(env: Environment, i: Input, t: Trusted, over: bool, reason: Denial) {
    if ShapeMalformed(i, t) then reason == MalformedInput
    else if env.textTooLarge(i) || over then reason == SignedMaterialTooLarge
    else if i.lease.alg != "RCLP-DEV-HMAC-SHA256" then reason == UnknownAlgorithm
    else if |t.issuerIds| != 1 || |t.commandAgentIds| != 1 || |t.stateEdgeIds| != 1 then reason == MalformedInput
    else if !PolicyAccepted(i.lease.claims, t) then reason == PolicyDigestNotAccepted
    else CommandExplains(env, i.command, t, reason)
  }

  predicate LifetimeExplains(l: Claims, t: Trusted, reason: Denial) {
    if t.now < l.issuedAt || (l.notBefore.Just? && t.now < l.notBefore.value) then reason == NotYetValid
    else if l.expiresAt <= t.now then reason == ExpiredLease
    else if l.expiresAt as int - l.issuedAt as int > t.maxLeaseTtlMs as int then reason == TtlTooLong
    else if t.maxLeaseAgeMs as int + SKEW > MAX_TIME then reason == MalformedInput
    else Old(l.issuedAt as int, t.now as int, t.maxLeaseAgeMs as int) && reason == StaleLease
  }

  predicate SubjectExplains(i: Input, reason: Denial) {
    var l, c, x := i.lease.claims, i.command, i.context;
    if c.robotId != l.robotId || x.robotId != l.robotId then reason == RobotMismatch
    else if c.agentId != l.agentId || c.edgeAgentId != l.edgeAgentId || x.edgeAgentId != l.edgeAgentId
    then reason == AgentMismatch
    else if c.missionId != l.missionId || x.missionId != l.missionId then reason == MissionMismatch
    else c.capability != l.capability && reason == CapabilityNotGranted
  }

  /** The first thing that is wrong with the lease: origin, lifetime, revocation, subject, limits. */
  ghost predicate LeaseExplains(env: Environment, i: Input, t: Trusted, reason: Denial) {
    var l := i.lease.claims;
    if l.issuerId !in t.issuerIds then reason == UnknownIssuer
    else if !env.leaseSigned(l, i.lease.signature, t.leaseSecret) then reason == InvalidSignature
    else if !InScope(l, t) then reason == CapabilityNotGranted
    else if !LeaseCurrent(l, t) then LifetimeExplains(l, t, reason)
    else if l.leaseId in t.revocations then reason == RevokedLease
    else if !SameSubject(i) then SubjectExplains(i, reason)
    else if !(exists r :: r in t.requirements && r.capability == l.capability && NamesRequired(l.constraints, r))
    then reason == MalformedInput
    else
      && reason == LeaseConstraintsExceedPolicy
      && !exists b :: b in t.bounds && b.capability == l.capability && WithinBound(l.constraints, b)
  }

  predicate InScope(l: Claims, t: Trusted) {
    && l.capability in t.acceptedCapabilities
    && exists s :: s in t.issuerScopes && s.issuerId == l.issuerId && l.capability in s.capabilities
  }

  predicate TimeOff(timestamp: int, now: int, age: int) { Ahead(timestamp, now) || Old(timestamp, now, age) }

  /** The first thing that is wrong with the local state. */
  ghost predicate StateExplains(env: Environment, i: Input, t: Trusted, reason: Denial) {
    var x, now, age := i.context, t.now as int, t.maxStateAgeMs as int;
    if x.authenticatedEdgeAgentId == Nothing || !Present(x.authenticatedEdgeAgentId.value) then reason == StateEdgeMissing
    else if x.authenticatedEdgeAgentId.value != x.edgeAgentId then reason == StateEdgeMismatch
    else if x.edgeAgentId !in t.stateEdgeIds then reason == StateKeyNotTrusted
    else if x.signature == Nothing || !Present(x.signature.value) then reason == StateSignatureMissing
    else if !env.contextSigned(x, x.signature.value, t.stateSecret) then reason == InvalidStateSignature
    else if WindowTooLarge(now, age) then reason == MalformedInput
    else if TimeOff(x.observedAt as int, now, age) || TimeOff(x.network.observedAt as int, now, age)
      || TimeOff(x.geofence.verifiedAt as int, now, age)
    then reason == StaleState
    else !InsideFence(i.lease.claims.constraints, x.geofence) && reason == GeofenceViolation
  }

  /** The lease names a fallback and wants a missed threshold to degrade. */
  predicate AsksToDegrade(c: Constraints) {
    c.fallbackOnDegrade.Just? && c.fallbackOnDegrade.value != "" && c.networkViolationAction == Just(DegradeAction)
  }

  predicate NetworkExplains(c: Constraints, n: NetworkReport, reason: Denial) {
    && (!Connected(n) || !ThresholdsMet(c, n))
    && if c.fallbackOnDegrade == Nothing || c.fallbackOnDegrade == Just("") then reason == MalformedInput
       else reason == NetworkPolicy && (!Connected(n) || c.networkViolationAction != Just(DegradeAction))
  }

  predicate PayloadExplains(numberValue: string -> real, c: Constraints, payload: Json, reason: Denial) {
    && !SpeedAllowed(numberValue, c, payload)
    && reason ==
       if !payload.Object? then MalformedInput
       else if exists f :: f in payload.fields && f != "max_speed_mps" && f != "speed_mps" then CommandConstraint
       else if exists f :: f in payload.fields && !SpeedValue(numberValue, payload.fields[f]) then MalformedInput
       else CommandConstraint
  }

  predicate SpeedValue(numberValue: string -> real, v: Json) { v.Number? && 0.0 <= numberValue(v.text) }

  /** Input, command and policy are in order. */
  ghost predicate Admitted(env: Environment, i: Input, t: Trusted) {
    && InputComplete(env, i, t) && |t.issuerIds| == 1 && |t.stateEdgeIds| == 1 && i.lease.alg == "RCLP-DEV-HMAC-SHA256"
    && CommandGenuine(env, i.command, t) && PolicyAccepted(i.lease.claims, t)
  }

  ghost predicate LeaseAccepted(env: Environment, i: Input, t: Trusted) {
    && LeaseGenuine(env, i.lease, t) && LeaseCurrent(i.lease.claims, t) && SameSubject(i)
    && LimitsKept(i.lease.claims, t)
  }

  ghost predicate StateAccepted(env: Environment, i: Input, t: Trusted) {
    StateGenuine(env, i.context, t) && InsideFence(i.lease.claims.constraints, i.context.geofence)
  }

  /** The reason of a denial before the replay store is touched is a fact about the first of these that fails. */
  ghost predicate Explains(env: Environment, i: Input, t: Trusted, reason: Denial) {
    var c, n := i.lease.claims.constraints, i.context.network;
    if !Admitted(env, i, t) then
      AdmissionExplains(env, i, t, !PayloadBudget.WithinBudget(PayloadBudget.RustWeight, i.command.payload), reason)
    else if !LeaseAccepted(env, i, t) then LeaseExplains(env, i, t, reason)
    else if !StateAccepted(env, i, t) then StateExplains(env, i, t, reason)
    else if !Connected(n) || (!ThresholdsMet(c, n) && !AsksToDegrade(c)) then NetworkExplains(c, n, reason)
    else PayloadExplains(env.numberValue, c, i.command.payload, reason)
  }

  lemma CommandReason(env: Environment, i: Input, t: Trusted)
    requires !TimesMalformed(i, t) && CommandAuth(env, i, t).Fail?
    ensures CommandExplains(env, i.command, t, CommandAuth(env, i, t).reason)
  {
    var c := i.command;
    PresentIsNotBlank(c.authenticatedAgentId);
    if c.signature.Just? { PresentIsNotBlank(c.signature.value); }
    CheckedSubExact(t.now, c.createdAt);
  }

  lemma PolicyReason(l: Claims, t: Trusted)
    requires Present(t.policyId) && Present(t.policyDigest) && Present(l.policyId) && Present(l.policyDigest)
    ensures PolicyAccepted(l, t) <==> PolicyDigest(t, l).Pass?
    ensures PolicyDigest(t, l).Fail? ==> PolicyDigest(t, l).reason == PolicyDigestNotAccepted
  {
    PolicyExactly(l, t);
    PresentIsNotBlank(t.policyId);
    PresentIsNotBlank(t.policyDigest);
    PresentIsNotBlank(l.policyId);
    PresentIsNotBlank(l.policyDigest);
  }

  /** Where the admission checks stop, told by their parts. */
  lemma AdmissionStops(env: Environment, i: Input, t: Trusted, over: bool)
    requires Admission(env, i, t, over).Fail?
    ensures var reason := Admission(env, i, t, over).reason;
      if TextMissing(i, t) || EnvelopeViolated(i) || TimesMalformed(i, t) || MetricsMalformed(i, t)
      then reason == MalformedInput
      else if env.textTooLarge(i) || over then reason == SignedMaterialTooLarge
      else if i.lease.alg != HMAC_ALG then reason == UnknownAlgorithm
      else if |t.issuerIds| != 1 || |t.commandAgentIds| != 1 || |t.stateEdgeIds| != 1 then reason == MalformedInput
      else if PolicyDigest(t, i.lease.claims).Fail? then reason == PolicyDigest(t, i.lease.claims).reason
      else CommandAuth(env, i, t) == Fail(reason)
  {
  }

  lemma ShapeExactly(i: Input, t: Trusted)
    ensures ShapeMalformed(i, t) <==>
            TextMissing(i, t) || EnvelopeViolated(i) || TimesMalformed(i, t) || MetricsMalformed(i, t)
  {
    TextsExactly(i, t);
    TrustExactly(t);
    TimesExactly(i, t);
    MetricsExactly(i, t);
  }

  lemma AdmissionReason(env: Environment, i: Input, t: Trusted, over: bool)
    requires Admission(env, i, t, over).Fail?
    ensures AdmissionExplains(env, i, t, over, Admission(env, i, t, over).reason)
  {
    AdmissionStops(env, i, t, over);
    ShapeExactly(i, t);
    if !ShapeMalformed(i, t) {
      PolicyReason(i.lease.claims, t);
      if CommandAuth(env, i, t).Fail? { CommandReason(env, i, t); }
    }
  }

  lemma LifetimeReason(i: Input, t: Trusted)
    requires !TimesMalformed(i, t) && LeaseTime(i.lease.claims, t).Fail?
    ensures LifetimeExplains(i.lease.claims, t, LeaseTime(i.lease.claims, t).reason)
  {
    CheckedSubExact(t.now, i.lease.claims.issuedAt);
    CheckedSubExact(i.lease.claims.expiresAt, i.lease.claims.issuedAt);
  }

  lemma SubjectReason(i: Input)
    requires Context(i).Fail?
    ensures SubjectExplains(i, Context(i).reason)
  {
  }

  lemma LimitsReason(l: Claims, t: Trusted)
    requires TrustComplete(t) && l.capability in t.acceptedCapabilities && Limits(l, t).Fail?
    ensures if !(exists r :: r in t.requirements && r.capability == l.capability && NamesRequired(l.constraints, r))
            then Limits(l, t).reason == MalformedInput
            else
              && Limits(l, t).reason == LeaseConstraintsExceedPolicy
              && !exists b :: b in t.bounds && b.capability == l.capability && WithinBound(l.constraints, b)
  {
    OnlyRequirement(t, l.capability);
    OnlyBound(t, l.capability);
    RequiredExactly(l.constraints, FindRequirement(t.requirements, l.capability).value);
    BoundExactly(l.constraints, FindBounds(t.bounds, l.capability).value);
  }

  /** Where the checks on the lease stop. */
  lemma LeaseStops(env: Environment, i: Input, t: Trusted)
    requires LeaseChecks(env, i, t).Fail?
    ensures var l, reason := i.lease.claims, LeaseChecks(env, i, t).reason;
      if l.issuerId !in t.issuerIds then reason == UnknownIssuer
      else if !env.leaseSigned(l, i.lease.signature, t.leaseSecret) then reason == InvalidSignature
      else if !CapabilityAllowed(l, t) then reason == CapabilityNotGranted
      else if LeaseTime(l, t).Fail? then reason == LeaseTime(l, t).reason
      else if l.leaseId in t.revocations then reason == RevokedLease
      else if Context(i).Fail? then reason == Context(i).reason
      else Limits(l, t) == Fail(reason)
  {
  }

  lemma LeaseReason(env: Environment, i: Input, t: Trusted)
    requires TrustComplete(t) && !TimesMalformed(i, t) && LeaseChecks(env, i, t).Fail?
    ensures LeaseExplains(env, i, t, LeaseChecks(env, i, t).reason)
  {
    LeaseStops(env, i, t);
    CapabilityExactly(i.lease.claims, t);
    ContextExactly(i, t);
    if LeaseTime(i.lease.claims, t).Fail? { LifetimeReason(i, t); }
    if Context(i).Fail? { SubjectReason(i); }
    if CapabilityAllowed(i.lease.claims, t) && Limits(i.lease.claims, t).Fail? { LimitsReason(i.lease.claims, t); }
  }

  lemma StateReason(env: Environment, i: Input, t: Trusted)
    requires !TimesMalformed(i, t) && StateChecks(env, i, t).Fail?
    ensures StateExplains(env, i, t, StateChecks(env, i, t).reason)
  {
    var x := i.context;
    if x.authenticatedEdgeAgentId.Just? { PresentIsNotBlank(x.authenticatedEdgeAgentId.value); }
    if x.signature.Just? { PresentIsNotBlank(x.signature.value); }
    CheckedSubExact(t.now, x.observedAt);
    CheckedSubExact(t.now, x.network.observedAt);
    CheckedSubExact(t.now, x.geofence.verifiedAt);
    FenceExactly(i.lease.claims.constraints, x.geofence);
  }

  lemma NetworkReason(c: Constraints, n: NetworkReport)
    ensures Network(c, n).Deny? ==> NetworkExplains(c, n, Network(c, n).reason)
  {
  }

  lemma PayloadReason(numberValue: string -> real, c: Constraints, payload: Json)
    ensures PayloadCheck(numberValue, c, payload).Fail? ==>
            PayloadExplains(numberValue, c, payload, PayloadCheck(numberValue, c, payload).reason)
  {
    SpeedExactly(numberValue, c, payload);
  }

  lemma AdmittedExactly(env: Environment, i: Input, t: Trusted, over: bool)
    requires over == !PayloadBudget.WithinBudget(PayloadBudget.RustWeight, i.command.payload)
    ensures Admitted(env, i, t) <==> Admission(env, i, t, over).Pass?
  {
    AdmissionSplit(env, i, t, over);
    TimesExactly(i, t);
    MetricsExactly(i, t);
    if |t.issuerIds| == |t.commandAgentIds| == |t.stateEdgeIds| == 1 { TextExactly(i, t); }
    if InputComplete(env, i, t) {
      CommandExactly(env, i, t);
      PolicyExactly(i.lease.claims, t);
    }
  }

  lemma StateAcceptedExactly(env: Environment, i: Input, t: Trusted)
    requires Admitted(env, i, t)
    ensures StateAccepted(env, i, t) <==> StateChecks(env, i, t).Pass?
  {
    TimesExactly(i, t);
    StateExactly(env, i, t);
    FenceExactly(i.lease.claims.constraints, i.context.geofence);
  }

  /** A denial comes from the first check that fails. */
  lemma DenialSource(env: Environment, i: Input, t: Trusted, over: bool)
    requires Screening(env, i, t, over).Deny?
    ensures var reason, c := Screening(env, i, t, over).reason, i.lease.claims.constraints;
      if Admission(env, i, t, over).Fail? then Admission(env, i, t, over).reason == reason
      else if LeaseChecks(env, i, t).Fail? then LeaseChecks(env, i, t).reason == reason
      else if StateChecks(env, i, t).Fail? then StateChecks(env, i, t).reason == reason
      else if Network(c, i.context.network).Deny? then Network(c, i.context.network).reason == reason
      else PayloadCheck(env.numberValue, c, i.command.payload) == Fail(reason)
  {
  }

  /**
    Every denial of the checks names the first condition that fails: of those on what is admitted
    at all, else on the lease, the local state, the network or the payload.
   */
  lemma DenialExplained(env: Environment, i: Input, t: Trusted)
    ensures Screened(env, i, t).Deny? ==> Explains(env, i, t, Screened(env, i, t).reason)
  {
    if Screened(env, i, t).Deny? {
      var over := !PayloadBudget.WithinBudget(PayloadBudget.RustWeight, i.command.payload);
      DenialSource(env, i, t, over);
      AdmittedExactly(env, i, t, over);
      if Admission(env, i, t, over).Fail? {
        AdmissionReason(env, i, t, over);
      } else {
        LaterReason(env, i, t, Screened(env, i, t).reason);
      }
    }
  }

  lemma LaterReason(env: Environment, i: Input, t: Trusted, reason: Denial)
    requires Admitted(env, i, t)
    requires var c := i.lease.claims.constraints;
      if LeaseChecks(env, i, t).Fail? then LeaseChecks(env, i, t).reason == reason
      else if StateChecks(env, i, t).Fail? then StateChecks(env, i, t).reason == reason
      else if Network(c, i.context.network).Deny? then Network(c, i.context.network).reason == reason
      else PayloadCheck(env.numberValue, c, i.command.payload) == Fail(reason)
    ensures Explains(env, i, t, reason)
  {
    var c := i.lease.claims.constraints;
    TimesExactly(i, t);
    LeaseExactly(env, i, t);
    StateAcceptedExactly(env, i, t);
    NetworkExactly(c, i.context.network);
    if LeaseChecks(env, i, t).Fail? {
      LeaseReason(env, i, t);
    } else if StateChecks(env, i, t).Fail? {
      StateReason(env, i, t);
    } else {
      NetworkReason(c, i.context.network);
      PayloadReason(env.numberValue, c, i.command.payload);
    }
  }
}
