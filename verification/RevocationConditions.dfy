/**
  When a revocation is accepted and what it then changes, told from the fields of the message, the
  lease and the configuration alone; and how a later denial on that lease names it.
 */
module RevocationConditions {
  import opened Core
  import opened Leases
  import opened Conformance
  import opened Gate
  import opened GateConditions
  import opened GateDenials

  /** Signed by a trusted revoker whose scope holds this edge, recent in both times, which do not contradict. */
  ghost predicate RevocationGenuine(cfg: GateConfig, r: Revocation, now: int) {
    && r.supportedVersion && r.edgeAgentId == cfg.localEdgeAgentId
    && r.revokedBy in cfg.trustedRevokerIds && r.revokedBy in cfg.revokerKeys
    && cfg.env.revocationSigned(r, cfg.revokerKeys[r.revokedBy])
    && r.revokedBy in cfg.revokerEdgeScopes && cfg.localEdgeAgentId in cfg.revokerEdgeScopes[r.revokedBy]
    && Recent(r.createdAt, now, cfg.maxRevocationAgeSeconds) && Recent(r.revokedAt, now, cfg.maxRevocationAgeSeconds)
    && r.createdAt - SKEW <= r.revokedAt
  }

  /** The message is about this lease: its id, its edge, and whatever of robot, mission and capability it names. */
  predicate AboutThis(r: Revocation, l: Lease) {
    && r.leaseId == l.leaseId && r.edgeAgentId == l.edgeAgentId
    && (r.robotId.Some? ==> r.robotId.value == l.robotId)
    && (r.missionId.Some? ==> r.missionId.value == l.missionId)
    && (r.capability.Some? ==> r.capability.value == l.capability)
  }

  /** The record of a revoked lease: who and what from the lease, why and which from the message. */
  function RecordOf(r: Revocation, l: Lease): RevokedLease {
    RevokedLease(
      l.leaseId, l.issuerId, l.agentId, l.edgeAgentId, l.robotId, l.missionId, l.capability, r.reason, r.fallbackAction,
      r.messageId, r.correlationId)
  }

  function Correlation(r: Revocation, l: Lease): string { if r.correlationId == "" then l.leaseId else r.correlationId }

  /** The declaration of an accepted revocation; the action is the gate's own, not the requested one. */
  function DeclarationOf(cfg: GateConfig, r: Revocation, l: Lease): Declaration {
    Declaration(Correlation(r, l), l.robotId, l.edgeAgentId, l.missionId, r.reason, ActionFor(cfg, r.reason),
                l.edgeAgentId, Some(l.leaseId), Some(r.messageId))
  }

  /** The revocation and its fallback, in this order, under robot and mission of the lease. */
  predicate EventsTell(events: seq<GateEvent>, r: Revocation, l: Lease, d: Declaration) {
    && |events| == 2 && events[0].eventType.LeaseRevoked? && events[1].eventType.FallbackDeclared?
    && events[0].actorId == r.revokedBy && events[1].actorId == l.edgeAgentId
    && events[0].reason == events[1].reason == r.reason
    && events[0].requestedFallback == Some(r.fallbackAction)
    && (forall i :: 0 <= i < 2 ==>
        && events[i].robotId == Some(l.robotId) && events[i].missionId == Some(l.missionId)
        && events[i].correlationId == d.correlationId && events[i].leaseId == Some(l.leaseId)
        && events[i].revocationId == Some(r.messageId) && events[i].fallbackAction == Some(d.action))
  }

  lemma VerdictExactly(cfg: GateConfig, r: Revocation, l: Lease, now: int)
    ensures RevocationVerdict(cfg, r, l, now).Valid? <==> RevocationGenuine(cfg, r, now) && AboutThis(r, l)
  {
  }

  /**
    A revocation is accepted exactly when it comes with its lease, is genuine and about this
    lease, and its id is new. It then stores the record under the lease and the message under its
    id, remembers the record, and declares one fallback; a refusal changes neither tables nor
    memory, and a known id is the one refusal that does not raise.
   */
  lemma AcceptedExactly(
    cfg: GateConfig, tables: Tables, memory: map<string, RevokedLease>, r: Revocation, lease: Option<Lease>, now: int)
    ensures var (tables', memory', out) := Revoke(cfg, tables, memory, r, lease, now);
      var genuine := lease.Some? && RevocationGenuine(cfg, r, now) && AboutThis(r, lease.value);
      && (out.result.RevokedNow? <==> genuine && r.messageId !in tables.messages)
      && (out.result.AlreadyAccepted? <==> genuine && r.messageId in tables.messages)
      && (out.result.RevokedNow? ==>
          && tables' == Tables(tables.leases[r.leaseId := RecordOf(r, lease.value)],
                               tables.messages[r.messageId := r.leaseId])
          && memory' == memory[r.leaseId := RecordOf(r, lease.value)]
          && out.result.declaration == DeclarationOf(cfg, r, lease.value) && out.declared == [out.result.declaration]
          && EventsTell(out.events, r, lease.value, DeclarationOf(cfg, r, lease.value)))
      && (!out.result.RevokedNow? ==> tables' == tables && memory' == memory && out.declared == [])
  {
    if lease.Some? {
      VerdictExactly(cfg, r, lease.value, now);
      ActionExactly(cfg, r.reason);
    }
  }

  // ------------------------------------------------------------- refusals say why

  /** The first of the two times that is off, or their contradiction. */
  predicate TimesExplain(cfg: GateConfig, r: Revocation, now: int, reason: Reason) {
    var age := cfg.maxRevocationAgeSeconds;
    if Ahead(r.createdAt, now) then reason == RevocationNotYetValid
    else if Old(r.createdAt, now, age) then reason == RevocationStale
    else if Ahead(r.revokedAt, now) then reason == RevocationNotYetValid
    else if Old(r.revokedAt, now, age) then reason == RevocationStale
    else r.revokedAt + SKEW < r.createdAt && reason == RevocationTimeInconsistent
  }

  /** The first thing that is wrong with a revocation and the lease it comes with. */
  ghost predicate RefusalExplained(cfg: GateConfig, r: Revocation, l: Lease, now: int, reason: Reason) {
    if !r.supportedVersion then reason == ProtocolVersionUnsupported
    else if l.edgeAgentId != cfg.localEdgeAgentId || r.edgeAgentId != cfg.localEdgeAgentId
    then reason == RevocationEdgeAgentMismatch
    else if r.revokedBy !in cfg.trustedRevokerIds then reason == RevocationActorNotTrusted
    else if r.revokedBy !in cfg.revokerKeys then reason == RevocationKeyNotTrusted
    else if !cfg.env.revocationSigned(r, cfg.revokerKeys[r.revokedBy]) then reason == RevocationSignatureInvalid
    else if r.revokedBy !in cfg.revokerEdgeScopes || cfg.localEdgeAgentId !in cfg.revokerEdgeScopes[r.revokedBy]
    then reason == RevocationActorScopeMismatch
    else if !RevocationGenuine(cfg, r, now) then TimesExplain(cfg, r, now, reason)
    else if r.leaseId != l.leaseId then reason == RevocationLeaseMismatch
    else !AboutThis(r, l) && reason == RevocationContextMismatch
  }

  lemma VerdictExplained(cfg: GateConfig, r: Revocation, l: Lease, now: int)
    requires RevocationVerdict(cfg, r, l, now).Invalid?
    ensures RefusalExplained(cfg, r, l, now, RevocationVerdict(cfg, r, l, now).reason)
  {
  }

  /** The revoker is named as the actor only once its signature has been verified. */
  ghost predicate ActorVerified(cfg: GateConfig, r: Revocation, actor: string) {
    || actor == "local_command_gate"
    || (actor == r.revokedBy && r.revokedBy in cfg.revokerKeys
        && cfg.env.revocationSigned(r, cfg.revokerKeys[r.revokedBy]))
  }

  lemma RejectedActor(cfg: GateConfig, r: Revocation, l: Lease, now: int)
    requires RevocationVerdict(cfg, r, l, now).Invalid?
    ensures ActorVerified(cfg, r, RejectedEvent(r, l, RevocationVerdict(cfg, r, l, now).reason).actorId)
  {
  }

  /** What a revocation that raises leaves behind. */
  lemma RaisedEvent(
    cfg: GateConfig, tables: Tables, memory: map<string, RevokedLease>, r: Revocation, l: Lease, now: int,
    verdict: Verdict)
    requires verdict == RevocationVerdict(cfg, r, l, now)
    ensures Revoke(cfg, tables, memory, r, Some(l), now).2.result.Raised? <==> verdict.Invalid?
    ensures verdict.Invalid? ==>
      Revoke(cfg, tables, memory, r, Some(l), now).2 ==
      RevokeOutput(Raised(verdict.reason), [RejectedEvent(r, l, verdict.reason)], [])
  {
  }

  /**
    A refused revocation names the first condition that fails, and is recorded once, under robot
    and mission of the lease; the revoker is the actor only if its signature was verified.
   */
  lemma RefusalIsExplained(
    cfg: GateConfig, tables: Tables, memory: map<string, RevokedLease>, r: Revocation, l: Lease, now: int)
    requires Revoke(cfg, tables, memory, r, Some(l), now).2.result.Raised?
    ensures var out := Revoke(cfg, tables, memory, r, Some(l), now).2;
      && RefusalExplained(cfg, r, l, now, out.result.reason)
      && |out.events| == 1 && out.events[0].reason == out.result.reason && out.events[0].eventType.RevocationRejected?
      && out.events[0].robotId == Some(l.robotId) && out.events[0].missionId == Some(l.missionId)
      && ActorVerified(cfg, r, out.events[0].actorId)
  {
    var verdict := RevocationVerdict(cfg, r, l, now);
    RaisedEvent(cfg, tables, memory, r, l, now, verdict);
    VerdictExplained(cfg, r, l, now);
    RejectedActor(cfg, r, l, now);
  }

  // ------------------------------------------------------------- a later denial names the revocation

  /** The lease as it was when it was revoked; the table keeps no other field. */
  predicate SameLease(l: Lease, later: Lease) {
    && later.leaseId == l.leaseId && later.issuerId == l.issuerId && later.agentId == l.agentId
    && later.edgeAgentId == l.edgeAgentId && later.robotId == l.robotId && later.missionId == l.missionId
    && later.capability == l.capability
  }

  lemma RecalledAfter(memory: map<string, RevokedLease>, r: Revocation, l: Lease, c: Command, later: Lease)
    requires AboutThis(r, l) && SameLease(l, later) && SameSubject(c, later)
    ensures Recalls(memory[r.leaseId := RecordOf(r, l)], c, later)
  {
  }

  /**
    From revocation to denial: once a gate has accepted a revocation, a command on that lease that
    it denies as revoked declares one fallback. It carries the revocation's id and correlation id
    and the gate's action for the revoker's reason, and the command is consumed.
   */
  lemma DenialNamesRevocation(
    cfg: GateConfig, tables: Tables, memory: map<string, RevokedLease>, r: Revocation, l: Lease, revokedAt: int,
    rows: set<Row>, c: Command, later: Lease, state: Option<RobotState>, now: int)
    requires Revoke(cfg, tables, memory, r, Some(l), revokedAt).2.result.RevokedNow? && SameLease(l, later)
    requires var memory' := Revoke(cfg, tables, memory, r, Some(l), revokedAt).1;
      SameSubject(c, later) && Evaluate(cfg, rows, memory', c, Some(later), state, now).1.result.reason == LeaseRevoked
    ensures var memory' := Revoke(cfg, tables, memory, r, Some(l), revokedAt).1;
      var (rows', out) := Evaluate(cfg, rows, memory', c, Some(later), state, now);
      && Consumed(rows, rows', c)
      && DeclaresOnce(out, Declaration(r.correlationId, c.robotId, c.edgeAgentId, c.missionId, LeaseRevoked,
                                       ActionFor(cfg, r.reason), c.edgeAgentId, Some(l.leaseId), Some(r.messageId)))
  {
    AcceptedExactly(cfg, tables, memory, r, Some(l), revokedAt);
    var memory' := Revoke(cfg, tables, memory, r, Some(l), revokedAt).1;
    RecalledAfter(memory, r, l, c, later);
    DeclaredExactly(cfg, rows, memory', c, Some(later), state, now);
  }
}
