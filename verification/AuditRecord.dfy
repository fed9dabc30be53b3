/**
  Audit events and the two hashes over them: of the payload, and of the record of fields
  that the integrity proof covers.

  `hash` stands for the stable JSON hash and is only ever assumed to be injective;
  `StableHashInjective` shows that hashing the canonical text with an injective digest is.
 */
module AuditRecord {
  import opened Core
  import opened Json

  datatype EventType =
    | DemoSetup | CapabilityRequested | NetworkStateAsserted | CapabilityAllowed | CapabilityDenied
    | CapabilityDegraded | CommandAllowed | CommandRejected | LeaseRevoked | RevocationRejected
    | FallbackDeclared | Diagnostic

  predicate AuthorityType(t: EventType) {
    !t.DemoSetup? && !t.Diagnostic?
  }

  /** `createdAt` is the printed timestamp, which is what the hash covers. */
  datatype Event = Event(
    protocolVersion: string, messageId: string, messageType: string, auditId: string, correlationId: string,
    createdAt: string, eventType: EventType, actorId: string, robotId: Option<string>, missionId: Option<string>,
    summary: string, payload: Json, payloadHash: string, authorityRelevant: bool, integrityProfile: string,
    integrityProof: Option<string>, previousAuditHash: Option<string>, policyId: Option<string>,
    policyDigest: Option<string>, stateRefs: seq<string>, relatedMessageIds: seq<string>)

  ghost predicate Injective<A(!new), B>(f: A -> B) {
    forall a, b :: f(a) == f(b) ==> a == b
  }

  /** `stable_json_hash`: a digest of the canonical text. */
  ghost function StableHash(digest: string -> string): Json -> string {
    (v: Json) => digest(Canonical(Ascii, v))
  }

  /** The stable JSON hash is injective when the digest is. */
  lemma StableHashInjective(digest: string -> string)
    requires Injective(digest)
    ensures Injective(StableHash(digest))
  {
    var hash := StableHash(digest);
    forall v: Json, w: Json | hash(v) == hash(w) ensures v == w {
      CanonicalDeterminesValue(Ascii, v, w);
    }
  }

  // ------------------------------------------------------------- the hashed record

  datatype Field =
    | FAuditId | FMessageId | FMessageType | FProtocolVersion | FCorrelationId | FCreatedAt | FEventType | FActorId
    | FRobotId | FMissionId | FSummary | FPayloadHash | FAuthorityRelevant | FIntegrityProfile | FPolicyId
    | FPolicyDigest | FStateRefs | FRelatedMessageIds | FPreviousAuditHash

  function Name(f: Field): string {
    match f
    case FAuditId => "audit_id"
    case FMessageId => "message_id"
    case FMessageType => "message_type"
    case FProtocolVersion => "protocol_version"
    case FCorrelationId => "correlation_id"
    case FCreatedAt => "created_at"
    case FEventType => "event_type"
    case FActorId => "actor_id"
    case FRobotId => "robot_id"
    case FMissionId => "mission_id"
    case FSummary => "summary"
    case FPayloadHash => "payload_hash"
    case FAuthorityRelevant => "authority_relevant"
    case FIntegrityProfile => "integrity_profile"
    case FPolicyId => "policy_id"
    case FPolicyDigest => "policy_digest"
    case FStateRefs => "state_refs"
    case FRelatedMessageIds => "related_message_ids"
    case FPreviousAuditHash => "previous_audit_hash"
  }

  /** Length and second character already tell the names apart. */
  function NameCode(f: Field): (nat, char) {
    match f
    case FAuditId => (8, 'u')
    case FMessageId => (10, 'e')
    case FMessageType => (12, 'e')
    case FProtocolVersion => (16, 'r')
    case FCorrelationId => (14, 'o')
    case FCreatedAt => (10, 'r')
    case FEventType => (10, 'v')
    case FActorId => (8, 'c')
    case FRobotId => (8, 'o')
    case FMissionId => (10, 'i')
    case FSummary => (7, 'u')
    case FPayloadHash => (12, 'a')
    case FAuthorityRelevant => (18, 'u')
    case FIntegrityProfile => (17, 'n')
    case FPolicyId => (9, 'o')
    case FPolicyDigest => (13, 'o')
    case FStateRefs => (10, 't')
    case FRelatedMessageIds => (19, 'e')
    case FPreviousAuditHash => (19, 'r')
  }

  lemma NameHasCode(f: Field)
    ensures |Name(f)| > 1 && (|Name(f)|, Name(f)[1]) == NameCode(f)
  {
  }

  lemma CodesDistinct(f: Field, g: Field)
    requires NameCode(f) == NameCode(g)
    ensures f == g
  {
  }

  lemma NamesDistinct()
    ensures forall f, g :: Name(f) == Name(g) ==> f == g
  {
    forall f, g | Name(f) == Name(g) ensures f == g {
      NameHasCode(f);
      NameHasCode(g);
      CodesDistinct(f, g);
    }
  }

  function TypeText(t: EventType): string {
    match t
    case DemoSetup => "demo_setup"
    case CapabilityRequested => "capability_requested"
    case NetworkStateAsserted => "network_state_asserted"
    case CapabilityAllowed => "capability_allowed"
    case CapabilityDenied => "capability_denied"
    case CapabilityDegraded => "capability_degraded"
    case CommandAllowed => "command_allowed"
    case CommandRejected => "command_rejected"
    case LeaseRevoked => "lease_revoked"
    case RevocationRejected => "revocation_rejected"
    case FallbackDeclared => "fallback_declared"
    case Diagnostic => "diagnostic"
  }

  function TypeCode(t: EventType): (nat, char, char) {
    match t
    case DemoSetup => (10, 'd', 'e')
    case CapabilityRequested => (20, 'c', 'a')
    case NetworkStateAsserted => (22, 'n', 'e')
    case CapabilityAllowed => (18, 'c', 'a')
    case CapabilityDenied => (17, 'c', 'a')
    case CapabilityDegraded => (19, 'c', 'a')
    case CommandAllowed => (15, 'c', 'o')
    case CommandRejected => (16, 'c', 'o')
    case LeaseRevoked => (13, 'l', 'e')
    case RevocationRejected => (19, 'r', 'e')
    case FallbackDeclared => (17, 'f', 'a')
    case Diagnostic => (10, 'd', 'i')
  }

  lemma TypeHasCode(t: EventType)
    ensures |TypeText(t)| > 1 && (|TypeText(t)|, TypeText(t)[0], TypeText(t)[1]) == TypeCode(t)
  {
  }

  lemma TypeTextsDistinct(t: EventType, u: EventType)
    requires TypeText(t) == TypeText(u)
    ensures t == u
  {
    TypeHasCode(t);
    TypeHasCode(u);
  }

  function Optional(text: Option<string>): Json {
    if text.None? then Null else String(text.value)
  }

  function Texts(texts: seq<string>): Json {
    Array(seq(|texts|, i requires 0 <= i < |texts| => String(texts[i])))
  }

  lemma TextsInjective(xs: seq<string>, ys: seq<string>)
    requires Texts(xs) == Texts(ys)
    ensures xs == ys
  {
    assert |xs| == |Texts(xs).items| == |Texts(ys).items| == |ys|;
    forall i | 0 <= i < |xs| ensures xs[i] == ys[i] {
      assert Texts(xs).items[i] == Texts(ys).items[i];
    }
  }

  function FieldValue(f: Field, e: Event, previous: Option<string>): Json {
    match f
    case FAuditId => String(e.auditId)
    case FMessageId => String(e.messageId)
    case FMessageType => String(e.messageType)
    case FProtocolVersion => String(e.protocolVersion)
    case FCorrelationId => String(e.correlationId)
    case FCreatedAt => String(e.createdAt)
    case FEventType => String(TypeText(e.eventType))
    case FActorId => String(e.actorId)
    case FRobotId => Optional(e.robotId)
    case FMissionId => Optional(e.missionId)
    case FSummary => String(e.summary)
    case FPayloadHash => String(e.payloadHash)
    case FAuthorityRelevant => Bool(e.authorityRelevant)
    case FIntegrityProfile => String(e.integrityProfile)
    case FPolicyId => Optional(e.policyId)
    case FPolicyDigest => Optional(e.policyDigest)
    case FStateRefs => Texts(e.stateRefs)
    case FRelatedMessageIds => Texts(e.relatedMessageIds)
    case FPreviousAuditHash => Optional(previous)
  }

  const FIELDS: seq<Field> := [
    FAuditId, FMessageId, FMessageType, FProtocolVersion, FCorrelationId, FCreatedAt, FEventType, FActorId, FRobotId,
    FMissionId, FSummary, FPayloadHash, FAuthorityRelevant, FIntegrityProfile, FPolicyId, FPolicyDigest, FStateRefs,
    FRelatedMessageIds, FPreviousAuditHash]

  lemma FieldsComplete(f: Field)
    ensures f in FIELDS
  {
    var i := match f
      case FAuditId => 0 case FMessageId => 1 case FMessageType => 2 case FProtocolVersion => 3 case FCorrelationId => 4
      case FCreatedAt => 5 case FEventType => 6 case FActorId => 7 case FRobotId => 8 case FMissionId => 9
      case FSummary => 10 case FPayloadHash => 11 case FAuthorityRelevant => 12 case FIntegrityProfile => 13
      case FPolicyId => 14 case FPolicyDigest => 15 case FStateRefs => 16 case FRelatedMessageIds => 17
      case FPreviousAuditHash => 18;
    assert FIELDS[i] == f;
  }

  function Record(fields: seq<Field>, e: Event, previous: Option<string>): (r: map<string, Json>)
    ensures forall f :: f in fields ==> Name(f) in r && r[Name(f)] == FieldValue(f, e, previous)
  {
    if fields == [] then map[]
    else
      var last := fields[|fields| - 1];
      NamesDistinct();
      assert forall f :: f in fields ==> f in fields[..|fields| - 1] || f == last;
      Record(fields[..|fields| - 1], e, previous)[Name(last) := FieldValue(last, e, previous)]
  }

  /** The JSON object whose hash is the integrity proof. */
  function ProofRecord(e: Event, previous: Option<string>): (v: Json)
    ensures v.Object?
    ensures forall f :: Name(f) in v.fields && v.fields[Name(f)] == FieldValue(f, e, previous)
  {
    assert forall f :: f in FIELDS by {
      forall f ensures f in FIELDS { FieldsComplete(f); }
    }
    Object(Record(FIELDS, e, previous))
  }

  lemma {:induction false} RecordNames(fields: seq<Field>, e: Event, previous: Option<string>, k: string)
    requires k in Record(fields, e, previous)
    ensures exists f :: f in fields && Name(f) == k
  {
    var last := fields[|fields| - 1];
    if k == Name(last) {
      assert last in fields;
    } else {
      RecordNames(fields[..|fields| - 1], e, previous, k);
      var f :| f in fields[..|fields| - 1] && Name(f) == k;
      assert f in fields;
    }
  }

  lemma RecordHasNoOther(e: Event, previous: Option<string>)
    ensures forall k :: k in ProofRecord(e, previous).fields ==> exists f :: Name(f) == k
  {
    forall k | k in ProofRecord(e, previous).fields ensures exists f :: Name(f) == k {
      RecordNames(FIELDS, e, previous, k);
    }
  }

  function Proof(hash: Json -> string, e: Event, previous: Option<string>): string {
    hash(ProofRecord(e, previous))
  }

  /** Equal up to the fields that the proof does not cover directly. */
  lemma ProofCoversFields(hash: Json -> string, e: Event, f: Event, p: Option<string>, q: Option<string>)
    requires Injective(hash) && Proof(hash, e, p) == Proof(hash, f, q)
    ensures p == q
    ensures f.(payload := e.payload, integrityProof := e.integrityProof, previousAuditHash := e.previousAuditHash) == e
  {
    assert ProofRecord(e, p) == ProofRecord(f, q);
    forall k ensures FieldValue(k, e, p) == FieldValue(k, f, q) {
      assert ProofRecord(e, p).fields[Name(k)] == ProofRecord(f, q).fields[Name(k)];
    }
    ValuesDetermineEvent(e, f, p, q);
  }

  /** Every proof field has the same value. */
  ghost predicate SameValues(e: Event, f: Event, p: Option<string>, q: Option<string>) {
    forall k :: FieldValue(k, e, p) == FieldValue(k, f, q)
  }

  lemma IdentityDetermined(e: Event, f: Event, p: Option<string>, q: Option<string>)
    requires SameValues(e, f, p, q)
    ensures e.auditId == f.auditId && e.messageId == f.messageId && e.messageType == f.messageType
    ensures e.protocolVersion == f.protocolVersion && e.correlationId == f.correlationId && e.createdAt == f.createdAt
    ensures e.eventType == f.eventType && e.actorId == f.actorId && e.robotId == f.robotId
  {
    assert FieldValue(FAuditId, e, p) == FieldValue(FAuditId, f, q);
    assert FieldValue(FMessageId, e, p) == FieldValue(FMessageId, f, q);
    assert FieldValue(FMessageType, e, p) == FieldValue(FMessageType, f, q);
    assert FieldValue(FProtocolVersion, e, p) == FieldValue(FProtocolVersion, f, q);
    assert FieldValue(FCorrelationId, e, p) == FieldValue(FCorrelationId, f, q);
    assert FieldValue(FCreatedAt, e, p) == FieldValue(FCreatedAt, f, q);
    assert FieldValue(FEventType, e, p) == FieldValue(FEventType, f, q);
    assert FieldValue(FActorId, e, p) == FieldValue(FActorId, f, q);
    assert FieldValue(FRobotId, e, p) == FieldValue(FRobotId, f, q);
    TypeTextsDistinct(e.eventType, f.eventType);
  }

  lemma ContentDetermined(e: Event, f: Event, p: Option<string>, q: Option<string>)
    requires SameValues(e, f, p, q)
    ensures e.missionId == f.missionId && e.summary == f.summary && e.payloadHash == f.payloadHash
    ensures e.authorityRelevant == f.authorityRelevant && e.integrityProfile == f.integrityProfile
    ensures e.policyId == f.policyId && e.policyDigest == f.policyDigest
    ensures e.stateRefs == f.stateRefs && e.relatedMessageIds == f.relatedMessageIds && p == q
  {
    assert FieldValue(FMissionId, e, p) == FieldValue(FMissionId, f, q);
    assert FieldValue(FSummary, e, p) == FieldValue(FSummary, f, q);
    assert FieldValue(FPayloadHash, e, p) == FieldValue(FPayloadHash, f, q);
    assert FieldValue(FAuthorityRelevant, e, p) == FieldValue(FAuthorityRelevant, f, q);
    assert FieldValue(FIntegrityProfile, e, p) == FieldValue(FIntegrityProfile, f, q);
    assert FieldValue(FPolicyId, e, p) == FieldValue(FPolicyId, f, q);
    assert FieldValue(FPolicyDigest, e, p) == FieldValue(FPolicyDigest, f, q);
    assert FieldValue(FStateRefs, e, p) == FieldValue(FStateRefs, f, q);
    assert FieldValue(FRelatedMessageIds, e, p) == FieldValue(FRelatedMessageIds, f, q);
    assert FieldValue(FPreviousAuditHash, e, p) == FieldValue(FPreviousAuditHash, f, q);
    TextsInjective(e.stateRefs, f.stateRefs);
    TextsInjective(e.relatedMessageIds, f.relatedMessageIds);
  }

  lemma ValuesDetermineEvent(e: Event, f: Event, p: Option<string>, q: Option<string>)
    requires SameValues(e, f, p, q)
    ensures p == q
    ensures f.(payload := e.payload, integrityProof := e.integrityProof, previousAuditHash := e.previousAuditHash) == e
  {
    IdentityDetermined(e, f, p, q);
    ContentDetermined(e, f, p, q);
  }

  lemma FieldIgnoresLinks(
    k: Field, e: Event, p: Option<string>, link: Option<string>, proof: Option<string>)
    ensures FieldValue(k, e.(previousAuditHash := link, integrityProof := proof), p) == FieldValue(k, e, p)
  {
  }

  lemma ProofIgnoresLinks(hash: Json -> string, e: Event, p: Option<string>, link: Option<string>, proof: Option<string>)
    ensures Proof(hash, e.(previousAuditHash := link, integrityProof := proof), p) == Proof(hash, e, p)
  {
    RecordHasNoOther(e, p);
    RecordHasNoOther(e.(previousAuditHash := link, integrityProof := proof), p);
    var r, r' := ProofRecord(e, p).fields, ProofRecord(e.(previousAuditHash := link, integrityProof := proof), p).fields;
    assert r.Keys == r'.Keys;
    forall k | k in r ensures r[k] == r'[k] {
      var f :| Name(f) == k;
      FieldIgnoresLinks(f, e, p, link, proof);
    }
    assert r == r';
  }

  // ------------------------------------------------------------- the hashes as the log uses them

  /** The payload hash and the integrity proof of an event after a previous hash. */
  datatype Hashes = Hashes(payload: Json -> string, proof: (Event, Option<string>) -> string)

  function StableHashes(hash: Json -> string): Hashes {
    Hashes(hash, (e: Event, previous: Option<string>) => Proof(hash, e, previous))
  }

  /** Equal proofs come from equal previous hashes and from events equal up to payload and links. */
  ghost predicate Covers(h: Hashes) {
    forall e: Event, f: Event, p, q :: h.proof(e, p) == h.proof(f, q) ==>
      && p == q
      && f.(payload := e.payload, integrityProof := e.integrityProof, previousAuditHash := e.previousAuditHash) == e
  }

  /** The proof does not look at the links stored in the event. */
  ghost predicate IgnoresLinks(h: Hashes) {
    forall e: Event, p, link, proof :: h.proof(e.(previousAuditHash := link, integrityProof := proof), p) == h.proof(e, p)
  }

  lemma StableHashesIgnoreLinks(hash: Json -> string)
    ensures IgnoresLinks(StableHashes(hash))
  {
    forall e: Event, p, link, proof
      ensures StableHashes(hash).proof(e.(previousAuditHash := link, integrityProof := proof), p)
           == StableHashes(hash).proof(e, p)
    {
      ProofIgnoresLinks(hash, e, p, link, proof);
    }
  }

  lemma StableHashesCover(hash: Json -> string)
    requires Injective(hash)
    ensures Injective(StableHashes(hash).payload) && Covers(StableHashes(hash))
  {
    var h := StableHashes(hash);
    forall e: Event, f: Event, p, q | h.proof(e, p) == h.proof(f, q)
      ensures p == q
      ensures f.(payload := e.payload, integrityProof := e.integrityProof, previousAuditHash := e.previousAuditHash) == e
    {
      ProofCoversFields(hash, e, f, p, q);
    }
  }
}
