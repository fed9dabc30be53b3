/**
  The command gate: what one `evaluate` and one `revoke` read, change and answer, as
  functions of the durable stores and the gate's memory. `GateObjects` proves that the
  gate's methods compute these functions; `GateRuns` reasons about whole runs.
 */
module Gate {
  import opened Core
  import opened Leases
  import opened Conformance
  import PayloadBudget
  import A = AuditRecord

  // ------------------------------------------------------------- durable stores

  datatype Kind = CommandIdKind | CommandNonceKind | LeaseNonceKind

  /** A row of the replay table; its three columns are the primary key. */
  datatype Row = Row(scope: string, kind: Kind, value: string)

  const LEASE_NONCE_SCOPE := "__lease_nonce__"

  datatype CommandKey = CommandKey(agentId: string, commandId: string, commandNonce: string)

  function KeyOf(c: Command): CommandKey {
    CommandKey(if c.authenticatedAgentId.Some? then c.authenticatedAgentId.value else "", c.commandId, c.commandNonce)
  }

  function IdRow(k: CommandKey): Row { Row(k.agentId, CommandIdKind, k.commandId) }
  function NonceRow(k: CommandKey): Row { Row(k.agentId, CommandNonceKind, k.commandNonce) }
  function LeaseRow(nonce: string): Row { Row(LEASE_NONCE_SCOPE, LeaseNonceKind, nonce) }

  function CommandRows(k: CommandKey): set<Row> { {IdRow(k), NonceRow(k)} }
  function AuthorizedRows(k: CommandKey, leaseNonce: string): set<Row> { CommandRows(k) + {LeaseRow(leaseNonce)} }

  predicate Contains(rows: set<Row>, c: Command) {
    c.authenticatedAgentId.Some? && (IdRow(KeyOf(c)) in rows || NonceRow(KeyOf(c)) in rows)
  }

  /** `remember`: both command rows, or nothing. */
  function Remember(rows: set<Row>, c: Command): (set<Row>, bool) {
    if c.authenticatedAgentId.None? || Contains(rows, c) then (rows, false)
    else (rows + CommandRows(KeyOf(c)), true)
  }

  /** `remember_authorized_use`: all three rows in one transaction, or none and the first conflict. */
  function RememberAuthorized(rows: set<Row>, c: Command, lease: Lease): (set<Row>, Verdict) {
    if c.authenticatedAgentId.None? then (rows, Invalid(CommandReplayed))
    else if IdRow(KeyOf(c)) in rows || NonceRow(KeyOf(c)) in rows then (rows, Invalid(CommandReplayed))
    else if LeaseRow(lease.nonce) in rows then (rows, Invalid(LeaseNonceReplayed))
    else (rows + AuthorizedRows(KeyOf(c), lease.nonce), Valid)
  }

  datatype RevokedLease = RevokedLease(
    leaseId: string, issuerId: string, agentId: string, edgeAgentId: string, robotId: string, missionId: string,
    capability: Capability, reason: Reason, fallbackAction: FallbackAction, revocationId: string, correlationId: string)

  /** The two revocation tables: revoked leases by lease id, accepted messages by revocation id. */
  datatype Tables = Tables(leases: map<string, RevokedLease>, messages: map<string, string>)

  /** One transaction: refuse a known revocation id, otherwise insert the message and upsert the lease. */
  function Record(t: Tables, r: RevokedLease): Option<Tables> {
    if r.revocationId in t.messages then None
    else Some(Tables(t.leases[r.leaseId := r], t.messages[r.revocationId := r.leaseId]))
  }

  // ------------------------------------------------------------- what the gate emits

  datatype Declaration = Declaration(
    correlationId: string, robotId: string, edgeAgentId: string, missionId: string, trigger: Reason,
    action: FallbackAction, declaredBy: string, leaseId: Option<string>, revocationId: Option<string>)

  /** An audit record before it gets its id, time and place in the chain. */
  datatype GateEvent = GateEvent(
    eventType: A.EventType, actorId: string, robotId: Option<string>, missionId: Option<string>, correlationId: string,
    authorityRelevant: bool, reason: Reason, command: Option<CommandKey>, leaseId: Option<string>,
    leaseNonce: Option<string>, revocationId: Option<string>, fallbackAction: Option<FallbackAction>,
    requestedFallback: Option<FallbackAction>)

  datatype GateResult = GateResult(
    allowed: bool, reason: Reason, fallbackAction: Option<FallbackAction>, declaration: Option<Declaration>)

  datatype Output = Output(result: GateResult, events: seq<GateEvent>, declared: seq<Declaration>)

  const LOCAL_ACTOR := "local_command_gate"

  /** `first or second` on text. */
  function Or(first: string, second: string): string { if first != "" then first else second }

  function DefaultFallback(reason: Reason): FallbackAction {
    match reason
    case NetworkLatencyTooHigh => CrawlToSafeZone
    case NetworkPacketLossTooHigh => CrawlToSafeZone
    case NetworkUplinkTooLow => CrawlToSafeZone
    case NetworkDetached => CrawlToSafeZone
    case NetworkStateUnknown => CrawlToSafeZone
    case NetworkProfileRevoke => CrawlToSafeZone
    case NetworkDegradedRevoke => CrawlToSafeZone
    case GeofenceConstraintViolated => HoldPosition
    case _ => LocalAutonomyOnly
  }

  function LocalFallback(cfg: GateConfig, reason: Reason): FallbackAction {
    if reason in cfg.fallbackActions then cfg.fallbackActions[reason] else DefaultFallback(reason)
  }

  predicate StateDenial(reason: Reason) {
    || reason.NetworkLatencyTooHigh? || reason.NetworkPacketLossTooHigh? || reason.NetworkUplinkTooLow?
    || reason.NetworkDetached? || reason.NetworkStateUnknown? || reason.GeofenceConstraintViolated?
  }

  function FallbackEvent(d: Declaration): GateEvent {
    GateEvent(A.FallbackDeclared, d.declaredBy, Some(d.robotId), Some(d.missionId), d.correlationId, true, d.trigger,
              None, d.leaseId, None, d.revocationId, Some(d.action), None)
  }

  // ------------------------------------------------------------- evaluate

  function CommandTime(cfg: GateConfig, c: Command, now: int): Verdict {
    if c.createdAt > now + CLOCK_SKEW_MS then Invalid(CommandNotYetValid)
    else if now - c.createdAt > Ms(cfg.maxCommandAgeSeconds) + CLOCK_SKEW_MS then Invalid(CommandStale)
    else Valid
  }

  /** `_command_auth_violation`, given whether the payload is within budget. */
  function AuthVerdict(cfg: GateConfig, c: Command, withinBudget: bool, now: int): Verdict {
    if !c.supportedVersion then Invalid(ProtocolVersionUnsupported)
    else if Blank(c.commandId) then Invalid(CommandIdMissing)
    else if Blank(c.commandNonce) then Invalid(CommandNonceMissing)
    else if c.authenticatedAgentId.None? then Invalid(CommandAuthenticatedAgentMissing)
    else if c.authenticatedAgentId.value != c.agentId then Invalid(CommandAuthenticatedAgentMismatch)
    else if c.agentId !in cfg.agentKeys then Invalid(CommandAgentKeyNotTrusted)
    else if !withinBudget then Invalid(CommandSignedMaterialTooLarge)
    else if !cfg.env.commandSigned(c, cfg.agentKeys[c.agentId]) then Invalid(CommandSignatureInvalid)
    else CommandTime(cfg, c, now)
  }

  ghost function Auth(cfg: GateConfig, c: Command, now: int): Verdict {
    AuthVerdict(cfg, c, PayloadBudget.WithinBudget(PayloadBudget.PythonWeight, c.payload), now)
  }

  /** The accepted revocation that explains a LEASE_REVOKED denial, if its context matches. */
  function MatchingRevocation(
    memory: map<string, RevokedLease>, c: Command, lease: Option<Lease>, reason: Reason): Option<RevokedLease>
  {
    if !reason.LeaseRevoked? || lease.None? || lease.value.leaseId !in memory then None
    else
      var l := lease.value;
      var r := memory[l.leaseId];
      if r.issuerId != l.issuerId || r.agentId != l.agentId || r.edgeAgentId != l.edgeAgentId || r.robotId != l.robotId
        || r.missionId != l.missionId || r.capability != l.capability
        || !MatchesContext(l, c.agentId, c.edgeAgentId, c.robotId, c.missionId, c.capability)
      then None
      else Some(r)
  }

  function LeaseIdOf(lease: Option<Lease>): Option<string> {
    if lease.Some? then Some(lease.value.leaseId) else None
  }

  predicate CanEmit(reason: Reason, revocation: Option<RevokedLease>) {
    if reason.LeaseRevoked? then revocation.Some? else StateDenial(reason)
  }

  /** `_reject_command` for an authenticated command. */
  function Reject(
    cfg: GateConfig, memory: map<string, RevokedLease>, c: Command, lease: Option<Lease>, reason: Reason, emit: bool)
    : Output
  {
    var revocation := MatchingRevocation(memory, c, lease, reason);
    var correlation := if revocation.Some? then revocation.value.correlationId else c.correlationId;
    var declares := emit && CanEmit(reason, revocation);
    var action := LocalFallback(
      cfg, if reason.LeaseRevoked? && revocation.Some? then revocation.value.reason else reason);
    var revocationId := if revocation.Some? then Some(revocation.value.revocationId) else None;
    var d := Declaration(correlation, c.robotId, c.edgeAgentId, c.missionId, reason, action, c.edgeAgentId,
                         LeaseIdOf(lease), revocationId);
    var denial := GateEvent(A.CommandRejected, c.edgeAgentId, Some(c.robotId), Some(c.missionId), correlation, true,
                            reason, Some(KeyOf(c)), LeaseIdOf(lease), None, None,
                            if declares then Some(action) else None, None);
    if declares
    then Output(GateResult(false, reason, Some(action), Some(d)), [denial, FallbackEvent(d)], [d])
    else Output(GateResult(false, reason, None, None), [denial], [])
  }

  /** `_reject_command` for a command that failed authentication: a diagnostic, no authority. */
  function RejectUntrusted(c: Command, reason: Reason): Output {
    Output(GateResult(false, reason, None, None),
           [GateEvent(A.Diagnostic, LOCAL_ACTOR, None, None, c.correlationId, false, reason, None, None, None, None,
                      None, None)],
           [])
  }

  function RejectEdge(cfg: GateConfig, c: Command, lease: Option<Lease>): Output {
    Output(GateResult(false, EdgeAgentMismatch, None, None),
           [GateEvent(A.CommandRejected, cfg.localEdgeAgentId, Some(c.robotId), Some(c.missionId),
                      Or(c.correlationId, c.commandId), true, EdgeAgentMismatch, Some(KeyOf(c)), LeaseIdOf(lease), None,
                      None, None, None)],
           [])
  }

  function Allowed(c: Command, lease: Lease): Output {
    Output(GateResult(true, Accepted, None, None),
           [GateEvent(A.CommandAllowed, c.edgeAgentId, Some(c.robotId), Some(c.missionId), c.correlationId, true,
                      Accepted, Some(KeyOf(c)), Some(lease.leaseId), Some(lease.nonce), None, None, None)],
           [])
  }

  /** The part of `evaluate` before lease validation, given the verdict on authentication. */
  function ScreenAfter(
    cfg: GateConfig, rows: set<Row>, memory: map<string, RevokedLease>, c: Command, lease: Option<Lease>, auth: Verdict)
    : Option<Output>
  {
    if auth.Invalid? then Some(RejectUntrusted(c, auth.reason))
    else if c.edgeAgentId != cfg.localEdgeAgentId || (lease.Some? && lease.value.edgeAgentId != cfg.localEdgeAgentId)
    then Some(RejectEdge(cfg, c, lease))
    else if Contains(rows, c) then Some(Reject(cfg, memory, c, lease, CommandReplayed, false))
    else if lease.None? then Some(Reject(cfg, memory, c, lease, NoLease, false))
    else None
  }

  /** `None` means that the lease is to be validated. */
  ghost function Screen(
    cfg: GateConfig, rows: set<Row>, memory: map<string, RevokedLease>, c: Command, lease: Option<Lease>, now: int)
    : Option<Output>
  {
    ScreenAfter(cfg, rows, memory, c, lease, Auth(cfg, c, now))
  }

  /** The part of `evaluate` after lease validation: one store transaction and the answer. */
  function Finish(
    cfg: GateConfig, rows: set<Row>, memory: map<string, RevokedLease>, c: Command, lease: Lease, verdict: Verdict)
    : (set<Row>, Output)
  {
    if verdict.Valid? then
      var (rows', use) := RememberAuthorized(rows, c, lease);
      if use.Valid? then (rows', Allowed(c, lease))
      else (rows', Reject(cfg, memory, c, Some(lease), use.reason, false))
    else
      var (rows', first) := Remember(rows, c);
      if first then (rows', Reject(cfg, memory, c, Some(lease), verdict.reason, true))
      else (rows', Reject(cfg, memory, c, Some(lease), CommandReplayed, false))
  }

  ghost function Evaluate(
    cfg: GateConfig, rows: set<Row>, memory: map<string, RevokedLease>, c: Command, lease: Option<Lease>,
    state: Option<RobotState>, now: int): (set<Row>, Output)
  {
    var screened := Screen(cfg, rows, memory, c, lease, now);
    if screened.Some? then (rows, screened.value)
    else Finish(cfg, rows, memory, c, lease.value, ValidateLease(cfg, lease.value, c, state, memory.Keys, now))
  }

  // ------------------------------------------------------------- revoke

  datatype RevokeResult = Raised(reason: Reason) | AlreadyAccepted | RevokedNow(declaration: Declaration)

  datatype RevokeOutput = RevokeOutput(result: RevokeResult, events: seq<GateEvent>, declared: seq<Declaration>)

  function RevocationTime(cfg: GateConfig, r: Revocation, now: int): Verdict {
    var oldest := Ms(cfg.maxRevocationAgeSeconds) + CLOCK_SKEW_MS;
    if r.createdAt > now + CLOCK_SKEW_MS then Invalid(RevocationNotYetValid)
    else if now - r.createdAt > oldest then Invalid(RevocationStale)
    else if r.revokedAt > now + CLOCK_SKEW_MS then Invalid(RevocationNotYetValid)
    else if now - r.revokedAt > oldest then Invalid(RevocationStale)
    else if r.revokedAt < r.createdAt - CLOCK_SKEW_MS then Invalid(RevocationTimeInconsistent)
    else Valid
  }

  predicate RevocationConflicts(r: Revocation, l: Lease) {
    || r.edgeAgentId != l.edgeAgentId
    || (r.robotId.Some? && r.robotId.value != l.robotId)
    || (r.missionId.Some? && r.missionId.value != l.missionId)
    || (r.capability.Some? && r.capability.value != l.capability)
  }

  function RevocationVerdict(cfg: GateConfig, r: Revocation, l: Lease, now: int): Verdict {
    if !r.supportedVersion then Invalid(ProtocolVersionUnsupported)
    else if l.edgeAgentId != cfg.localEdgeAgentId || r.edgeAgentId != cfg.localEdgeAgentId
    then Invalid(RevocationEdgeAgentMismatch)
    else if r.revokedBy !in cfg.trustedRevokerIds then Invalid(RevocationActorNotTrusted)
    else if r.revokedBy !in cfg.revokerKeys then Invalid(RevocationKeyNotTrusted)
    else if !cfg.env.revocationSigned(r, cfg.revokerKeys[r.revokedBy]) then Invalid(RevocationSignatureInvalid)
    else if r.revokedBy !in cfg.revokerEdgeScopes || l.edgeAgentId !in cfg.revokerEdgeScopes[r.revokedBy]
    then Invalid(RevocationActorScopeMismatch)
    else if RevocationTime(cfg, r, now).Invalid? then RevocationTime(cfg, r, now)
    else if l.leaseId != r.leaseId then Invalid(RevocationLeaseMismatch)
    else if RevocationConflicts(r, l) then Invalid(RevocationContextMismatch)
    else Valid
  }

  /** Before its signature has been verified a revoker is only claimed. */
  predicate RevokerAuthenticated(reason: Reason) {
    || reason.RevocationActorScopeMismatch? || reason.RevocationNotYetValid? || reason.RevocationStale?
    || reason.RevocationTimeInconsistent? || reason.RevocationLeaseMismatch? || reason.RevocationContextMismatch?
    || reason.RevocationReplayed?
  }

  function RevokedRecord(r: Revocation, l: Lease): RevokedLease {
    RevokedLease(r.leaseId, l.issuerId, l.agentId, l.edgeAgentId, l.robotId, l.missionId, l.capability, r.reason,
                 r.fallbackAction, r.messageId, r.correlationId)
  }

  /** Which lease id stands in for a missing correlation id: the claimed one while the context is in doubt. */
  function RejectionCorrelation(r: Revocation, l: Lease, reason: Reason): string {
    if reason.RevocationEdgeAgentMismatch? || reason.RevocationActorNotTrusted? || reason.RevocationActorScopeMismatch?
    then Or(r.correlationId, r.leaseId)
    else Or(r.correlationId, l.leaseId)
  }

  function RejectedEvent(r: Revocation, l: Lease, reason: Reason): GateEvent {
    GateEvent(A.RevocationRejected, if RevokerAuthenticated(reason) then r.revokedBy else LOCAL_ACTOR, Some(l.robotId),
              Some(l.missionId), RejectionCorrelation(r, l, reason), true, reason, None, Some(r.leaseId), None,
              Some(r.messageId), None, None)
  }

  function RevokedEvent(cfg: GateConfig, r: Revocation, l: Lease): GateEvent {
    GateEvent(A.LeaseRevoked, r.revokedBy, Some(l.robotId), Some(l.missionId), Or(r.correlationId, l.leaseId), true,
              r.reason, None, Some(r.leaseId), None, Some(r.messageId), Some(LocalFallback(cfg, r.reason)),
              Some(r.fallbackAction))
  }

  function RevocationDeclaration(cfg: GateConfig, r: Revocation, l: Lease): Declaration {
    Declaration(Or(r.correlationId, l.leaseId), l.robotId, l.edgeAgentId, l.missionId, r.reason,
                LocalFallback(cfg, r.reason), l.edgeAgentId, Some(l.leaseId), Some(r.messageId))
  }

  /** What the caller sees once the revocation has been stored. */
  function Published(cfg: GateConfig, r: Revocation, l: Lease): RevokeOutput {
    var d := RevocationDeclaration(cfg, r, l);
    RevokeOutput(RevokedNow(d), [RevokedEvent(cfg, r, l), FallbackEvent(d)], [d])
  }

  /** `revoke` with a revocation message: new tables, new memory, output. */
  function Revoke(
    cfg: GateConfig, tables: Tables, memory: map<string, RevokedLease>, r: Revocation, lease: Option<Lease>, now: int)
    : (Tables, map<string, RevokedLease>, RevokeOutput)
  {
    if lease.None? then
      var diagnostic := GateEvent(A.Diagnostic, LOCAL_ACTOR, None, None, Or(r.correlationId, r.leaseId), false,
                                  RevocationContextRequired, None, Some(r.leaseId), None, Some(r.messageId), None, None);
      (tables, memory, RevokeOutput(Raised(RevocationContextRequired), [diagnostic], []))
    else
      var l := lease.value;
      var verdict := RevocationVerdict(cfg, r, l, now);
      if verdict.Invalid? then
        (tables, memory, RevokeOutput(Raised(verdict.reason), [RejectedEvent(r, l, verdict.reason)], []))
      else
        var record := RevokedRecord(r, l);
        var recorded := Record(tables, record);
        if recorded.None? then
          (tables, memory, RevokeOutput(AlreadyAccepted, [RejectedEvent(r, l, RevocationReplayed)], []))
        else (recorded.value, memory[record.leaseId := record], Published(cfg, r, l))
  }

  // ------------------------------------------------------------- what an answer is bound to

  lemma AllowedWasValid(
    cfg: GateConfig, rows: set<Row>, memory: map<string, RevokedLease>, c: Command, lease: Option<Lease>,
    state: Option<RobotState>, now: int)
    requires Evaluate(cfg, rows, memory, c, lease, state, now).1.result.allowed
    ensures Auth(cfg, c, now).Valid? && c.edgeAgentId == cfg.localEdgeAgentId && lease.Some?
    ensures ValidateLease(cfg, lease.value, c, state, memory.Keys, now).Valid?
  {
  }

  lemma SoundWhenValid(
    cfg: GateConfig, lease: Lease, c: Command, state: Option<RobotState>, revoked: set<string>, now: int)
    requires ValidateLease(cfg, lease, c, state, revoked, now).Valid?
    ensures state.Some? ==> StateSound(lease.constraints, state.value)
  {
    assert AboutLease(cfg, lease, c, revoked, now).Valid? && AboutState(cfg, lease, state, now).Valid?;
  }

  /** The network is attached, of a known profile and no partition, and the robot is where the lease wants it. */
  predicate StateSound(c: LeaseConstraints, x: RobotState) {
    var n := x.network;
    && n.attached && !n.profile.UnknownProfile? && !n.profile.Partition?
    && (c.maxLatencyMsP95.Some? ==> n.latencyMsP95 <= c.maxLatencyMsP95.value)
    && (c.maxPacketLossPct.Some? ==> n.packetLossPct <= c.maxPacketLossPct.value)
    && (c.minUplinkMbps.Some? ==> n.uplinkMbps >= c.minUplinkMbps.value)
    && (c.geofenceId.Some? ==> x.geofence.inside && x.geofence.geofenceId == c.geofenceId.value)
  }

  /**
    An allowed command was recently signed by the agent the lease names, is addressed to this
    edge, and is backed end to end: see `Conformance.ValidLeaseIsBound`. No remembered lease is
    revoked, and a given state is sound.
   */
  lemma AllowedIsBound(
    cfg: GateConfig, rows: set<Row>, memory: map<string, RevokedLease>, c: Command, lease: Option<Lease>,
    state: Option<RobotState>, now: int)
    requires Evaluate(cfg, rows, memory, c, lease, state, now).1.result.allowed
    ensures lease.Some? && c.authenticatedAgentId == Some(lease.value.agentId)
    ensures c.agentId in cfg.agentKeys && cfg.env.commandSigned(c, cfg.agentKeys[c.agentId])
    ensures lease.value.edgeAgentId == cfg.localEdgeAgentId
    ensures Entitled(cfg, lease.value) && Bound(lease.value, c, state) && lease.value.leaseId !in memory
    ensures HonouredFrom(lease.value) <= now < lease.value.expiresAt
    ensures c.createdAt - CLOCK_SKEW_MS <= now <= c.createdAt + 1000 * cfg.maxCommandAgeSeconds + CLOCK_SKEW_MS
    ensures state.Some? ==> StateSound(lease.value.constraints, state.value)
  {
    AllowedWasValid(cfg, rows, memory, c, lease, state, now);
    SoundWhenValid(cfg, lease.value, c, state, memory.Keys, now);
    ValidLeaseIsBound(cfg, lease.value, c, state, memory.Keys, now);
  }

  /** A revocation takes effect only from a trusted revoker scoped to this edge, signed, fresh and about this lease. */
  lemma RevokedIsBound(
    cfg: GateConfig, tables: Tables, memory: map<string, RevokedLease>, r: Revocation, lease: Option<Lease>, now: int)
    requires Revoke(cfg, tables, memory, r, lease, now).2.result.RevokedNow?
    ensures lease.Some? && r.leaseId == lease.value.leaseId
    ensures r.edgeAgentId == lease.value.edgeAgentId == cfg.localEdgeAgentId
    ensures r.revokedBy in cfg.trustedRevokerIds && r.revokedBy in cfg.revokerKeys
    ensures cfg.env.revocationSigned(r, cfg.revokerKeys[r.revokedBy])
    ensures r.revokedBy in cfg.revokerEdgeScopes && cfg.localEdgeAgentId in cfg.revokerEdgeScopes[r.revokedBy]
    ensures var oldest := now - Ms(cfg.maxRevocationAgeSeconds) - CLOCK_SKEW_MS;
      oldest <= r.createdAt <= now + CLOCK_SKEW_MS && oldest <= r.revokedAt <= now + CLOCK_SKEW_MS
    ensures r.createdAt - CLOCK_SKEW_MS <= r.revokedAt && r.messageId !in tables.messages
  {
    assert RevocationVerdict(cfg, r, lease.value, now).Valid?;
  }

  /** A valid command on a valid lease is allowed as soon as its three rows are fresh. */
  lemma AllowedWhenFresh(
    cfg: GateConfig, rows: set<Row>, memory: map<string, RevokedLease>, c: Command, lease: Lease, state: RobotState,
    now: int)
    requires Auth(cfg, c, now).Valid?
    requires c.edgeAgentId == cfg.localEdgeAgentId && lease.edgeAgentId == cfg.localEdgeAgentId
    requires ValidateLease(cfg, lease, c, Some(state), memory.Keys, now).Valid?
    requires rows !! AuthorizedRows(KeyOf(c), lease.nonce)
    ensures Evaluate(cfg, rows, memory, c, Some(lease), Some(state), now) ==
            (rows + AuthorizedRows(KeyOf(c), lease.nonce), Allowed(c, lease))
  {
    var k := KeyOf(c);
    assert IdRow(k) in AuthorizedRows(k, lease.nonce) && NonceRow(k) in AuthorizedRows(k, lease.nonce);
    assert LeaseRow(lease.nonce) in AuthorizedRows(k, lease.nonce);
    assert Screen(cfg, rows, memory, c, Some(lease), now).None?;
  }

  // ------------------------------------------------------------- laws of one step

  /** A rejection that consumed the command: neither a replay, nor a missing lease, nor a wrong edge. */
  predicate ConsumingDenial(e: GateEvent) {
    && e.eventType.CommandRejected?
    && !e.reason.CommandReplayed? && !e.reason.NoLease? && !e.reason.LeaseNonceReplayed? && !e.reason.EdgeAgentMismatch?
  }

  lemma RowsDistinct(k: CommandKey, nonce: string)
    ensures |CommandRows(k)| == 2 && |AuthorizedRows(k, nonce)| == 3
  {
    assert CommandRows(k) == {IdRow(k)} + {NonceRow(k)};
    assert AuthorizedRows(k, nonce) == CommandRows(k) + {LeaseRow(nonce)};
  }

  lemma FreshUnion(rows: set<Row>, extra: set<Row>)
    requires rows !! extra
    ensures |rows + extra| == |rows| + |extra|
  {
  }

  /** A verdict of lease validation: never one of the gate's own replay or routing reasons. */
  predicate LeaseVerdict(v: Verdict) {
    v.Invalid? ==>
      !v.reason.CommandReplayed? && !v.reason.NoLease? && !v.reason.LeaseNonceReplayed? && !v.reason.EdgeAgentMismatch?
  }

  ghost predicate ConsumesAsLogged(
    rows: set<Row>, c: Command, lease: Option<Lease>, rows': set<Row>, out: Output)
  {
    && |out.events| >= 1
    && (out.events[0].eventType.CommandAllowed? <==> out.result.allowed)
    && (out.result.allowed ==>
        && lease.Some? && out == Allowed(c, lease.value)
        && rows' == rows + AuthorizedRows(KeyOf(c), lease.value.nonce)
        && rows !! AuthorizedRows(KeyOf(c), lease.value.nonce) && |rows'| == |rows| + 3)
    && (ConsumingDenial(out.events[0]) ==>
        rows' == rows + CommandRows(KeyOf(c)) && rows !! CommandRows(KeyOf(c)) && |rows'| == |rows| + 2)
    && (!out.result.allowed && !ConsumingDenial(out.events[0]) ==> rows' == rows)
  }

  lemma FinishLaw(
    cfg: GateConfig, rows: set<Row>, memory: map<string, RevokedLease>, c: Command, lease: Lease, verdict: Verdict)
    requires LeaseVerdict(verdict) && c.authenticatedAgentId.Some?
    ensures var (rows', out) := Finish(cfg, rows, memory, c, lease, verdict);
      ConsumesAsLogged(rows, c, Some(lease), rows', out)
  {
    var k := KeyOf(c);
    RowsDistinct(k, lease.nonce);
    if rows !! AuthorizedRows(k, lease.nonce) { FreshUnion(rows, AuthorizedRows(k, lease.nonce)); }
    if rows !! CommandRows(k) { FreshUnion(rows, CommandRows(k)); }
  }

  lemma ScreenLaw(
    cfg: GateConfig, rows: set<Row>, memory: map<string, RevokedLease>, c: Command, lease: Option<Lease>, auth: Verdict)
    ensures var screened := ScreenAfter(cfg, rows, memory, c, lease, auth);
      screened.Some? ==> ConsumesAsLogged(rows, c, lease, rows, screened.value) && screened.value.declared == []
  {
  }

  /**
    Consumption law. The first audit event of an evaluation tells exactly what it consumed:
    three fresh rows when allowed, two when the lease was refused, none otherwise.
   */
  lemma ConsumptionLaw(
    cfg: GateConfig, rows: set<Row>, memory: map<string, RevokedLease>, c: Command, lease: Option<Lease>,
    state: Option<RobotState>, now: int)
    ensures var (rows', out) := Evaluate(cfg, rows, memory, c, lease, state, now);
      ConsumesAsLogged(rows, c, lease, rows', out)
  {
    ScreenLaw(cfg, rows, memory, c, lease, Auth(cfg, c, now));
    if Screen(cfg, rows, memory, c, lease, now).None? {
      ValidationReasons(cfg, lease.value, c, state, memory.Keys, now);
      var verdict := ValidateLease(cfg, lease.value, c, state, memory.Keys, now);
      FinishLaw(cfg, rows, memory, c, lease.value, verdict);
    }
  }

  predicate ContextComplete(e: GateEvent) {
    A.AuthorityType(e.eventType) ==> e.authorityRelevant && e.robotId.Some? && e.missionId.Some?
  }

  /** At most one fallback, recorded right after the event that caused it, under its correlation id. */
  predicate SharesGroup(events: seq<GateEvent>, declared: seq<Declaration>, cause: A.EventType) {
    && (forall i :: 0 <= i < |events| ==> ContextComplete(events[i]))
    && (declared != [] ==>
        && |declared| == 1 && |events| == 2 && events[1] == FallbackEvent(declared[0])
        && events[0].eventType == cause && events[0].correlationId == events[1].correlationId)
  }

  lemma ScreenSharesGroup(
    cfg: GateConfig, rows: set<Row>, memory: map<string, RevokedLease>, c: Command, lease: Option<Lease>, auth: Verdict)
    ensures var screened := ScreenAfter(cfg, rows, memory, c, lease, auth);
      screened.Some? ==> SharesGroup(screened.value.events, screened.value.declared, A.CommandRejected)
  {
  }

  lemma FinishSharesGroup(
    cfg: GateConfig, rows: set<Row>, memory: map<string, RevokedLease>, c: Command, lease: Lease, verdict: Verdict)
    ensures var out := Finish(cfg, rows, memory, c, lease, verdict).1;
      SharesGroup(out.events, out.declared, A.CommandRejected)
  {
  }

  /**
    A fallback follows the denial that caused it, in the same correlation group, and every
    event the gate records carries the context the audit log insists on.
   */
  lemma DenialSharesGroup(
    cfg: GateConfig, rows: set<Row>, memory: map<string, RevokedLease>, c: Command, lease: Option<Lease>,
    state: Option<RobotState>, now: int)
    ensures var out := Evaluate(cfg, rows, memory, c, lease, state, now).1;
      SharesGroup(out.events, out.declared, A.CommandRejected)
  {
    ScreenSharesGroup(cfg, rows, memory, c, lease, Auth(cfg, c, now));
    if Screen(cfg, rows, memory, c, lease, now).None? {
      var verdict := ValidateLease(cfg, lease.value, c, state, memory.Keys, now);
      FinishSharesGroup(cfg, rows, memory, c, lease.value, verdict);
    }
  }

  /** The same for a fallback declared by a revocation. */
  lemma RevocationSharesGroup(
    cfg: GateConfig, tables: Tables, memory: map<string, RevokedLease>, r: Revocation, lease: Option<Lease>, now: int)
    ensures var out := Revoke(cfg, tables, memory, r, lease, now).2;
      SharesGroup(out.events, out.declared, A.LeaseRevoked)
  {
  }
}
