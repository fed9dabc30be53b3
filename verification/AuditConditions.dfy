/**
  What the audit log accepts and what it signs, told from the fields of the events alone: chains,
  appending, import, batches, and the text under the integrity proof, read back by its own parser.
 */
module AuditConditions {
  import opened Core
  import opened Json
  import opened AuditRecord
  import opened Audit
  import opened JsonParser

  // ------------------------------------------------------------- one event

  /** The event types that need authority and a full context; the other two are diagnostics. */
  predicate SpeaksWithAuthority(t: EventType) {
    || t == CapabilityRequested || t == NetworkStateAsserted || t == CapabilityAllowed || t == CapabilityDenied
    || t == CapabilityDegraded || t == CommandAllowed || t == CommandRejected || t == EventType.LeaseRevoked
    || t == RevocationRejected || t == FallbackDeclared
  }

  predicate ContextGiven(e: Event) {
    SpeaksWithAuthority(e.eventType) ==> e.authorityRelevant && e.robotId != None && e.missionId != None
  }

  /** The proof of the last event, if there is one. */
  function LastProof(log: seq<Event>): Option<string> {
    if |log| == 0 then None else log[|log| - 1].integrityProof
  }

  lemma ContextExactly(e: Event)
    ensures ContextGiven(e) <==> !ContextInvalid(e)
    ensures SpeaksWithAuthority(e.eventType) <==> AuthorityType(e.eventType)
  {
  }

  // ------------------------------------------------------------- chains

  /** The i-th event: a new id, its context, its payload's hash, the link to the event before, its proof. */
  predicate InPlace(h: Hashes, events: seq<Event>, i: nat)
    requires i < |events|
  {
    var e := events[i];
    && (forall j :: 0 <= j < i ==> events[j].auditId != e.auditId)
    && ContextGiven(e) && e.payloadHash == h.payload(e.payload)
    && e.previousAuditHash == (if i == 0 then None else events[i - 1].integrityProof)
    && e.integrityProof == Some(h.proof(e, e.previousAuditHash))
  }

  ghost predicate Chained(h: Hashes, events: seq<Event>) {
    forall i: nat :: i < |events| ==> InPlace(h, events, i)
  }

  /** The first thing that is wrong with the i-th event. */
  predicate FaultTells(h: Hashes, events: seq<Event>, i: nat, fault: Fault)
    requires i < |events|
  {
    var e := events[i];
    var previous := if i == 0 then None else events[i - 1].integrityProof;
    if exists j :: 0 <= j < i && events[j].auditId == e.auditId then fault == DuplicateAuditId
    else if !ContextGiven(e) then fault == ContextFault
    else if e.payloadHash != h.payload(e.payload) then fault == PayloadHashFault
    else if e.previousAuditHash != previous then fault == PreviousHashFault
    else e.integrityProof != Some(h.proof(e, previous)) && fault == IntegrityProofFault
  }

  /** The fault of an event is none exactly when it is in place, and otherwise the first thing wrong with it. */
  lemma FaultExactly(h: Hashes, events: seq<Event>, i: nat)
    requires i < |events|
    ensures EventFault(h, events, i).None? <==> InPlace(h, events, i)
    ensures EventFault(h, events, i).Some? ==> FaultTells(h, events, i, EventFault(h, events, i).value)
  {
    ContextExactly(events[i]);
  }

  /** A list is a chain exactly when every event is in place. */
  lemma ChainExactly(h: Hashes, events: seq<Event>)
    ensures ChainOk(h, events) <==> Chained(h, events)
  {
    forall i: nat | i < |events| ensures EventFault(h, events, i).None? <==> InPlace(h, events, i) {
      FaultExactly(h, events, i);
    }
  }

  /**
    `append` takes an event exactly when its id is new, its context is given, its payload hash is
    right, and the links it brings, if any, are those it will get; it only fills in the links.
   */
  lemma AppendedExactly(h: Hashes, log: seq<Event>, e: Event)
    ensures var proof, committed := h.proof(e, LastProof(log)), Committed(h, log, e);
      && (committed.Some? <==>
          && (forall j :: 0 <= j < |log| ==> log[j].auditId != e.auditId)
          && ContextGiven(e) && e.payloadHash == h.payload(e.payload)
          && (e.previousAuditHash == None || e.previousAuditHash == LastProof(log))
          && (e.integrityProof == None || e.integrityProof == Some(proof)))
      && (committed.Some? ==>
          committed.value == e.(previousAuditHash := LastProof(log), integrityProof := Some(proof)))
  {
    ContextExactly(e);
  }

  /**
    Import takes a list exactly when it is a chain and, for the authority profile, empty or ending
    in the trusted head; for the diagnostic profile, without any event that carries authority.
   */
  lemma ImportedExactly(h: Hashes, events: seq<Event>, trustedHead: Option<string>, profile: ImportProfile)
    ensures LoadAccepts(h, events, trustedHead, profile) <==>
            && Chained(h, events)
            && (profile == AuthorityChain && events != [] ==> trustedHead != None && trustedHead == LastProof(events))
            && (profile == DiagnosticOnly ==> forall i :: 0 <= i < |events| ==>
                !events[i].authorityRelevant && !SpeaksWithAuthority(events[i].eventType))
  {
    ChainExactly(h, events);
    forall i | 0 <= i < |events|
      ensures SpeaksWithAuthority(events[i].eventType) <==> AuthorityType(events[i].eventType)
    {
      ContextExactly(events[i]);
    }
  }

  /** A batch verifies against a list exactly when the list is a chain and the batch is the one made from it. */
  lemma BatchExactly(h: Hashes, dump: Event -> Json, batch: BatchCommit, events: seq<Event>)
    ensures BatchVerifies(h, dump, batch, events) <==>
            && events != [] && Chained(h, events) && |batch.auditIds| == |events| == batch.eventCount
            && (forall i :: 0 <= i < |events| ==> batch.auditIds[i] == events[i].auditId)
            && LastProof(events) == Some(batch.chainHead) && batch.batchHash == h.payload(BatchPayload(dump, events))
    ensures events != [] && Chained(h, events) ==>
            Head(events).Some? && (BatchVerifies(h, dump, batch, events) <==> batch == CreateBatch(h, dump, events))
  {
    ChainExactly(h, events);
    if events != [] && Chained(h, events) { AcceptedIsLinked(h, events, |events| - 1); }
    if |batch.auditIds| == |events| && forall i :: 0 <= i < |events| ==> batch.auditIds[i] == events[i].auditId {
      assert batch.auditIds == Ids(events);
    }
  }

  /** The number that a text of decimal digits writes. */
  function Decimal(s: string): int {
    if s == [] then 0 else 10 * Decimal(s[..|s| - 1]) + (s[|s| - 1] as int - 0x30)
  }

  lemma {:induction false} DigitsReadBack(n: nat)
    ensures Decimal(Digits(n)) == n && forall i :: 0 <= i < |Digits(n)| ==> '0' <= Digits(n)[i] <= '9'
    decreases n
  {
    var s := Digits(n);
    assert HexDigit(n % 10) as int == 0x30 + n % 10;
    if n < 10 {
      assert s[..0] == [];
    } else {
      DigitsReadBack(n / 10);
      assert s[..|s| - 1] == Digits(n / 10);
    }
  }

  /** What a batch commits to, by wire name: the ids, their number, the chain head and every event in order. */
  lemma BatchPayloadTells(dump: Event -> Json, events: seq<Event>)
    ensures var v := BatchPayload(dump, events);
      && v.Object? && Has(v.fields, "message_type", String("audit_batch_payload_v0"))
      && HasTexts(v.fields, "audit_ids", seq(|events|, i requires 0 <= i < |events| => events[i].auditId))
      && "event_count" in v.fields && v.fields["event_count"].Number?
      && Decimal(v.fields["event_count"].text) == |events|
      && Has(v.fields, "chain_head", TextOr(LastProof(events)))
      && "events" in v.fields && v.fields["events"].Array? && |v.fields["events"].items| == |events|
      && forall i :: 0 <= i < |events| ==> v.fields["events"].items[i] == dump(events[i])
  {
    DigitsReadBack(|events|);
  }

  // ------------------------------------------------------------- the signed text

  /** The event type that a text names. */
  function TypeNamed(text: string): Option<EventType> {
    if text == "demo_setup" then Some(DemoSetup)
    else if text == "capability_requested" then Some(CapabilityRequested)
    else if text == "network_state_asserted" then Some(NetworkStateAsserted)
    else if text == "capability_allowed" then Some(CapabilityAllowed)
    else if text == "capability_denied" then Some(CapabilityDenied)
    else if text == "capability_degraded" then Some(CapabilityDegraded)
    else if text == "command_allowed" then Some(CommandAllowed)
    else if text == "command_rejected" then Some(CommandRejected)
    else if text == "lease_revoked" then Some(EventType.LeaseRevoked)
    else if text == "revocation_rejected" then Some(RevocationRejected)
    else if text == "fallback_declared" then Some(FallbackDeclared)
    else if text == "diagnostic" then Some(Diagnostic)
    else None
  }

  function TextOr(text: Option<string>): Json { if text == None then Null else String(text.value) }

  /** A JSON list of texts. */
  predicate Lists(v: Json, texts: seq<string>) {
    v.Array? && |v.items| == |texts| && forall i :: 0 <= i < |texts| ==> v.items[i] == String(texts[i])
  }

  predicate Has(fields: map<string, Json>, name: string, value: Json) { name in fields && fields[name] == value }

  predicate HasTexts(fields: map<string, Json>, name: string, texts: seq<string>) {
    name in fields && Lists(fields[name], texts)
  }

  /** The signed object names the event, under the wire names of the fields. */
  predicate NamesEvent(fields: map<string, Json>, e: Event) {
    && Has(fields, "audit_id", String(e.auditId)) && Has(fields, "message_id", String(e.messageId))
    && Has(fields, "message_type", String(e.messageType)) && Has(fields, "protocol_version", String(e.protocolVersion))
    && Has(fields, "correlation_id", String(e.correlationId)) && Has(fields, "created_at", String(e.createdAt))
  }

  predicate NamesActor(fields: map<string, Json>, e: Event) {
    && "event_type" in fields && fields["event_type"].String?
    && TypeNamed(fields["event_type"].s) == Some(e.eventType)
    && Has(fields, "actor_id", String(e.actorId)) && Has(fields, "robot_id", TextOr(e.robotId))
    && Has(fields, "mission_id", TextOr(e.missionId)) && Has(fields, "authority_relevant", Bool(e.authorityRelevant))
  }

  predicate NamesContent(fields: map<string, Json>, e: Event) {
    && Has(fields, "summary", String(e.summary)) && Has(fields, "payload_hash", String(e.payloadHash))
    && Has(fields, "integrity_profile", String(e.integrityProfile)) && Has(fields, "policy_id", TextOr(e.policyId))
    && Has(fields, "policy_digest", TextOr(e.policyDigest))
  }

  predicate NamesLinks(fields: map<string, Json>, e: Event, previous: Option<string>) {
    && Has(fields, "previous_audit_hash", TextOr(previous))
    && HasTexts(fields, "state_refs", e.stateRefs) && HasTexts(fields, "related_message_ids", e.relatedMessageIds)
  }

  lemma TypeReadsBack(t: EventType)
    ensures TypeNamed(TypeText(t)) == Some(t)
  {
    TypeHasCode(t);
  }

  predicate Recorded(fields: map<string, Json>, e: Event, previous: Option<string>, f: Field) {
    Has(fields, Name(f), FieldValue(f, e, previous))
  }

  ghost predicate AllRecorded(fields: map<string, Json>, e: Event, previous: Option<string>) {
    forall f :: Recorded(fields, e, previous, f)
  }

  lemma RecordHasAll(e: Event, previous: Option<string>)
    ensures AllRecorded(ProofRecord(e, previous).fields, e, previous)
  {
  }

  lemma FieldRead(
    fields: map<string, Json>, e: Event, previous: Option<string>, f: Field, name: string, value: Json)
    requires AllRecorded(fields, e, previous) && Name(f) == name && FieldValue(f, e, previous) == value
    ensures Has(fields, name, value)
  {
    assert Recorded(fields, e, previous, f);
  }

  lemma EventNamed(e: Event, previous: Option<string>, fields: map<string, Json>)
    requires AllRecorded(fields, e, previous)
    ensures NamesEvent(fields, e)
  {
    FieldRead(fields, e, previous, FAuditId, "audit_id", String(e.auditId));
    FieldRead(fields, e, previous, FMessageId, "message_id", String(e.messageId));
    FieldRead(fields, e, previous, FMessageType, "message_type", String(e.messageType));
    FieldRead(fields, e, previous, FProtocolVersion, "protocol_version", String(e.protocolVersion));
    FieldRead(fields, e, previous, FCorrelationId, "correlation_id", String(e.correlationId));
    FieldRead(fields, e, previous, FCreatedAt, "created_at", String(e.createdAt));
  }

  lemma ActorNamed(e: Event, previous: Option<string>, fields: map<string, Json>)
    requires AllRecorded(fields, e, previous)
    ensures NamesActor(fields, e)
  {
    FieldRead(fields, e, previous, FEventType, "event_type", String(TypeText(e.eventType)));
    FieldRead(fields, e, previous, FActorId, "actor_id", String(e.actorId));
    FieldRead(fields, e, previous, FRobotId, "robot_id", TextOr(e.robotId));
    FieldRead(fields, e, previous, FMissionId, "mission_id", TextOr(e.missionId));
    FieldRead(fields, e, previous, FAuthorityRelevant, "authority_relevant", Bool(e.authorityRelevant));
    TypeReadsBack(e.eventType);
  }

  lemma ContentNamed(e: Event, previous: Option<string>, fields: map<string, Json>)
    requires AllRecorded(fields, e, previous)
    ensures NamesContent(fields, e)
  {
    FieldRead(fields, e, previous, FSummary, "summary", String(e.summary));
    FieldRead(fields, e, previous, FPayloadHash, "payload_hash", String(e.payloadHash));
    FieldRead(fields, e, previous, FIntegrityProfile, "integrity_profile", String(e.integrityProfile));
    FieldRead(fields, e, previous, FPolicyId, "policy_id", TextOr(e.policyId));
    FieldRead(fields, e, previous, FPolicyDigest, "policy_digest", TextOr(e.policyDigest));
  }

  lemma LinksNamed(e: Event, previous: Option<string>, fields: map<string, Json>)
    requires AllRecorded(fields, e, previous)
    ensures NamesLinks(fields, e, previous)
  {
    FieldRead(fields, e, previous, FPreviousAuditHash, "previous_audit_hash", TextOr(previous));
    FieldRead(fields, e, previous, FStateRefs, "state_refs", Texts(e.stateRefs));
    FieldRead(fields, e, previous, FRelatedMessageIds, "related_message_ids", Texts(e.relatedMessageIds));
  }

  /**
    The integrity proof is the digest of a text that reads back as a JSON object naming every
    covered field of the event, and the previous hash, by its wire name.
   */
  lemma ProofTextReadsBack(digest: string -> string, e: Event, previous: Option<string>) returns (text: string)
    ensures LogHashes(digest).proof(e, previous) == digest(text)
    ensures Parse(text).Got? && Parse(text).value.Object?
    ensures var fields := Parse(text).value.fields;
      NamesEvent(fields, e) && NamesActor(fields, e) && NamesContent(fields, e) && NamesLinks(fields, e, previous)
  {
    var record := ProofRecord(e, previous);
    text := Canonical(Ascii, record);
    CanonicalReadsBack(Ascii, record);
    RecordHasAll(e, previous);
    EventNamed(e, previous, record.fields);
    ActorNamed(e, previous, record.fields);
    ContentNamed(e, previous, record.fields);
    LinksNamed(e, previous, record.fields);
  }
}
