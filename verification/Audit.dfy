/**
  The hash-chained audit log: appending, importing, batch verification, and the theorem
  that a trusted chain head pins down the whole list of events.
 */
module Audit {
  import opened Core
  import opened Json
  import opened AuditRecord

  /** What the theorems need of the hashes; `LogHashesAreSound` provides it. */
  ghost predicate Sound(h: Hashes) {
    AuditRecord.Injective(h.payload) && Covers(h)
  }

  // ------------------------------------------------------------- chains

  predicate ContextInvalid(e: Event) {
    AuthorityType(e.eventType) && (!e.authorityRelevant || e.robotId.None? || e.missionId.None?)
  }

  function Head(events: seq<Event>): Option<string> {
    if events == [] then None else events[|events| - 1].integrityProof
  }

  datatype Fault =
    | EventsRequired | DuplicateAuditId | ContextFault | PayloadHashFault | PreviousHashFault | IntegrityProofFault

  /** The first check that the i-th event fails, given the events before it. */
  function EventFault(h: Hashes, events: seq<Event>, i: nat): Option<Fault>
    requires i < |events|
  {
    var e := events[i];
    var previous := Head(events[..i]);
    if exists j :: 0 <= j < i && events[j].auditId == e.auditId then Some(DuplicateAuditId)
    else if ContextInvalid(e) then Some(ContextFault)
    else if e.payloadHash != h.payload(e.payload) then Some(PayloadHashFault)
    else if e.previousAuditHash != previous then Some(PreviousHashFault)
    else if e.integrityProof != Some(h.proof(e, previous)) then Some(IntegrityProofFault)
    else None
  }

  ghost predicate ChainOk(h: Hashes, events: seq<Event>) {
    forall i :: 0 <= i < |events| ==> EventFault(h, events, i).None?
  }

  lemma FaultOfPrefix(h: Hashes, events: seq<Event>, n: nat, i: nat)
    requires i < n <= |events|
    ensures EventFault(h, events[..n], i) == EventFault(h, events, i)
  {
    assert events[..n][..i] == events[..i];
  }

  lemma ChainPrefix(h: Hashes, events: seq<Event>, n: nat)
    requires ChainOk(h, events) && n <= |events|
    ensures ChainOk(h, events[..n])
  {
    forall i | 0 <= i < n ensures EventFault(h, events[..n], i).None? {
      FaultOfPrefix(h, events, n, i);
    }
  }

  /** What an accepted event and its place in the chain have to do with each other. */
  predicate Linked(h: Hashes, e: Event, previous: Option<string>) {
    && e.payloadHash == h.payload(e.payload)
    && e.previousAuditHash == previous
    && e.integrityProof == Some(h.proof(e, previous))
  }

  lemma LinkDetermined(h: Hashes, e: Event, f: Event, p: Option<string>, q: Option<string>)
    requires Sound(h) && Linked(h, e, p) && Linked(h, f, q) && e.integrityProof == f.integrityProof
    ensures e == f && p == q
  {
  }

  lemma AcceptedIsLinked(h: Hashes, events: seq<Event>, i: nat)
    requires ChainOk(h, events) && i < |events|
    ensures Linked(h, events[i], Head(events[..i]))
    ensures Head(events[..i]).None? <==> i == 0
  {
    assert EventFault(h, events, i).None?;
    if i > 0 {
      assert EventFault(h, events, i - 1).None?;
    }
  }

  /**
    Tamper evidence. Two non-empty accepted lists with the same chain head are equal in
    every field, payloads included.
   */
  lemma {:induction false} TamperEvidence(h: Hashes, es: seq<Event>, fs: seq<Event>)
    requires Sound(h) && ChainOk(h, es) && ChainOk(h, fs)
    requires es != [] && fs != [] && Head(es) == Head(fs)
    ensures es == fs
    decreases |es|
  {
    var m, n := |es| - 1, |fs| - 1;
    AcceptedIsLinked(h, es, m);
    AcceptedIsLinked(h, fs, n);
    LinkDetermined(h, es[m], fs[n], Head(es[..m]), Head(fs[..n]));
    if m > 0 {
      ChainPrefix(h, es, m);
      ChainPrefix(h, fs, n);
      TamperEvidence(h, es[..m], fs[..n]);
    }
    assert es == es[..m] + [es[m]] && fs == fs[..n] + [fs[n]];
  }

  // ------------------------------------------------------------- appending

  /** The event as committed, or `None` where `append` raises. */
  function Committed(h: Hashes, log: seq<Event>, e: Event): Option<Event> {
    var previous := Head(log);
    if (exists j :: 0 <= j < |log| && log[j].auditId == e.auditId) || ContextInvalid(e)
      || e.payloadHash != h.payload(e.payload)
      || (e.previousAuditHash.Some? && e.previousAuditHash != previous)
      || (e.integrityProof.Some? && e.integrityProof != Some(h.proof(e, previous)))
    then None
    else Some(e.(previousAuditHash := previous, integrityProof := Some(h.proof(e, previous))))
  }

  lemma CommittedExtendsChain(h: Hashes, log: seq<Event>, e: Event)
    requires IgnoresLinks(h) && ChainOk(h, log) && Committed(h, log, e).Some?
    ensures ChainOk(h, log + [Committed(h, log, e).value])
  {
    var committed := Committed(h, log, e).value;
    var longer := log + [committed];
    assert longer[..|log|] == log;
    forall i | 0 <= i < |longer| ensures EventFault(h, longer, i).None? {
      if i < |log| {
        FaultOfPrefix(h, longer, |log|, i);
      }
    }
  }

  ghost function IdSet(events: seq<Event>): set<string> {
    set i | 0 <= i < |events| :: events[i].auditId
  }

  lemma IdSetExtends(events: seq<Event>, e: Event)
    ensures IdSet(events + [e]) == IdSet(events) + {e.auditId}
  {
    var longer := events + [e];
    assert longer[|events|] == e;
    forall i | 0 <= i < |events| ensures events[i].auditId in IdSet(longer) {
      assert longer[i] == events[i];
    }
  }

  /** `AuditLog`: the committed events and the ids already used. */
  class AuditLog {
    const h: Hashes
    var events: seq<Event>
    var auditIds: set<string>

    ghost predicate Valid()
      reads this
    {
      && IgnoresLinks(h)
      && ChainOk(h, events)
      && auditIds == IdSet(events)
    }

    constructor (h: Hashes)
      requires IgnoresLinks(h)
      ensures Valid() && events == [] && this.h == h
    {
      this.h := h;
      events, auditIds := [], {};
    }

    /** Append, or refuse and leave the log as it was. */
    method Append(e: Event) returns (r: Option<Event>)
      requires Valid()
      modifies this
      ensures Valid()
      ensures r == Committed(h, old(events), e)
      ensures events == if r.Some? then old(events) + [r.value] else old(events)
    {
      if e.auditId in auditIds { return None; }
      var previous: Option<string> := None;
      if events != [] { previous := events[|events| - 1].integrityProof; }
      if ContextInvalid(e) { return None; }
      if e.payloadHash != h.payload(e.payload) { return None; }
      var expected := h.proof(e, previous);
      if e.previousAuditHash.Some? && e.previousAuditHash != previous { return None; }
      if e.integrityProof.Some? && e.integrityProof.value != expected { return None; }
      CommittedExtendsChain(h, events, e);
      var committed := e.(previousAuditHash := previous, integrityProof := Some(expected));
      IdSetExtends(events, committed);
      events := events + [committed];
      auditIds := auditIds + {committed.auditId};
      return Some(committed);
    }
  }

  /** Appending a whole list; `None` as soon as one event is refused. */
  function AppendAll(h: Hashes, log: seq<Event>, events: seq<Event>): Option<seq<Event>>
    decreases |events|
  {
    if events == [] then Some(log)
    else
      var committed := Committed(h, log, events[0]);
      if committed.None? then None else AppendAll(h, log + [committed.value], events[1..])
  }

  // ------------------------------------------------------------- import

  datatype ImportProfile = AuthorityChain | DiagnosticOnly

  predicate AuthorityEvent(e: Event) {
    e.authorityRelevant || AuthorityType(e.eventType)
  }

  ghost predicate LoadAccepts(
    h: Hashes, events: seq<Event>, trustedHead: Option<string>, profile: ImportProfile)
  {
    && ChainOk(h, events)
    && match profile
       case DiagnosticOnly => forall i :: 0 <= i < |events| ==> !AuthorityEvent(events[i])
       case AuthorityChain => events == [] || (trustedHead.Some? && trustedHead == Head(events))
  }

  /** The validating part of `load_jsonl`, over already parsed lines; `None` where it raises. */
  method LoadEvents(
    h: Hashes, lines: seq<Event>, trustedHead: Option<string>, profile: ImportProfile)
    returns (loaded: Option<seq<Event>>)
    ensures loaded.Some? <==> LoadAccepts(h, lines, trustedHead, profile)
    ensures loaded.Some? ==> loaded.value == lines
  {
    var events: seq<Event> := [];
    var auditIds: set<string> := {};
    var previous: Option<string> := None;
    var authorityEvents := false;
    for i := 0 to |lines|
      invariant events == lines[..i]
      invariant auditIds == set j | 0 <= j < i :: lines[j].auditId
      invariant previous == Head(lines[..i])
      invariant forall j :: 0 <= j < i ==> EventFault(h, lines, j).None?
      invariant authorityEvents <==> exists j :: 0 <= j < i && AuthorityEvent(lines[j])
    {
      var e := lines[i];
      assert EventFault(h, lines, i).None? <==>
             e.auditId !in auditIds && !ContextInvalid(e) && Linked(h, e, previous);
      if e.auditId in auditIds || ContextInvalid(e) || e.payloadHash != h.payload(e.payload)
        || e.previousAuditHash != previous || e.integrityProof != Some(h.proof(e, previous))
      {
        return None;
      }
      authorityEvents := authorityEvents || AuthorityEvent(e);
      auditIds := auditIds + {e.auditId};
      events := events + [e];
      previous := e.integrityProof;
    }
    assert lines[..|lines|] == lines;
    if profile.DiagnosticOnly? {
      return if authorityEvents then None else Some(events);
    }
    if events != [] && (trustedHead.None? || trustedHead != previous) {
      return None;
    }
    return Some(events);
  }

  // ------------------------------------------------------------- batches

  /** `audit_batch_chain_violation`: the fault of the first faulty event. */
  method BatchChainViolation(h: Hashes, events: seq<Event>) returns (fault: Option<Fault>)
    ensures fault.None? <==> events != [] && ChainOk(h, events)
    ensures events != [] && fault.Some? ==>
      exists i :: 0 <= i < |events| && ChainOk(h, events[..i]) && fault == EventFault(h, events, i)
  {
    if events == [] { return Some(EventsRequired); }
    var previous: Option<string> := None;
    var auditIds: set<string> := {};
    for i := 0 to |events|
      invariant auditIds == set j | 0 <= j < i :: events[j].auditId
      invariant previous == Head(events[..i])
      invariant forall j :: 0 <= j < i ==> EventFault(h, events, j).None?
    {
      var e := events[i];
      forall j | 0 <= j < i ensures EventFault(h, events[..i], j).None? {
        FaultOfPrefix(h, events, i, j);
      }
      assert EventFault(h, events, i).Some? ==> !ChainOk(h, events);
      if e.auditId in auditIds { return Some(DuplicateAuditId); }
      auditIds := auditIds + {e.auditId};
      if ContextInvalid(e) { return Some(ContextFault); }
      if e.payloadHash != h.payload(e.payload) { return Some(PayloadHashFault); }
      if e.previousAuditHash != previous { return Some(PreviousHashFault); }
      if e.integrityProof != Some(h.proof(e, previous)) { return Some(IntegrityProofFault); }
      previous := e.integrityProof;
    }
    return None;
  }

  lemma {:induction false} ReappendStep(h: Hashes, events: seq<Event>, i: nat)
    requires i <= |events| && ChainOk(h, events)
    ensures AppendAll(h, events[..i], events[i..]) == Some(events)
    decreases |events| - i
  {
    if i == |events| {
      assert events[..i] == events;
    } else {
      assert EventFault(h, events, i).None?;
      assert Committed(h, events[..i], events[i]) == Some(events[i]);
      assert events[..i] + [events[i]] == events[..i + 1];
      ReappendStep(h, events, i + 1);
    }
  }

  lemma {:induction false} AppendAllKeepsChain(h: Hashes, log: seq<Event>, events: seq<Event>)
    requires IgnoresLinks(h) && ChainOk(h, log) && AppendAll(h, log, events).Some?
    ensures ChainOk(h, AppendAll(h, log, events).value)
    decreases |events|
  {
    if events != [] {
      CommittedExtendsChain(h, log, events[0]);
      AppendAllKeepsChain(h, log + [Committed(h, log, events[0]).value], events[1..]);
    }
  }

  /**
    The three validators agree. What appending builds is a chain; a list is a chain exactly
    when appending it to a fresh log reproduces it unchanged; and import with the list's own
    head accepts it exactly then.
   */
  lemma ThreeValidatorsAgree(h: Hashes, drafts: seq<Event>, events: seq<Event>)
    requires IgnoresLinks(h)
    ensures AppendAll(h, [], drafts).Some? ==> ChainOk(h, AppendAll(h, [], drafts).value)
    ensures ChainOk(h, events) <==> AppendAll(h, [], events) == Some(events)
    ensures LoadAccepts(h, events, Head(events), AuthorityChain) <==> ChainOk(h, events)
  {
    if AppendAll(h, [], drafts).Some? {
      AppendAllKeepsChain(h, [], drafts);
    }
    if ChainOk(h, events) {
      ReappendStep(h, events, 0);
      assert events[..0] == [] && events[0..] == events;
      if events != [] {
        AcceptedIsLinked(h, events, |events| - 1);
      }
    }
    if AppendAll(h, [], events) == Some(events) {
      AppendAllKeepsChain(h, [], events);
    }
  }

  // ------------------------------------------------------------- the log's own hash

  /** The hashes the log computes: the stable JSON hash of payload and proof record. */
  ghost function LogHashes(digest: string -> string): Hashes {
    StableHashes(StableHash(digest))
  }

  lemma LogHashesAreSound(digest: string -> string)
    requires AuditRecord.Injective(digest)
    ensures Sound(LogHashes(digest)) && IgnoresLinks(LogHashes(digest))
  {
    StableHashInjective(digest);
    StableHashesCover(StableHash(digest));
    StableHashesIgnoreLinks(StableHash(digest));
  }

  /**
    From the digest to the log. Under the log's own hashing over an injective digest, a chain
    head pins down the whole list, and append, re-append and import accept the same lists.
   */
  lemma DigestPinsTheLog(digest: string -> string, drafts: seq<Event>, es: seq<Event>, fs: seq<Event>)
    requires AuditRecord.Injective(digest)
    ensures var h := LogHashes(digest);
      && (ChainOk(h, es) && ChainOk(h, fs) && es != [] && fs != [] && Head(es) == Head(fs) ==> es == fs)
      && (AppendAll(h, [], drafts).Some? ==> ChainOk(h, AppendAll(h, [], drafts).value))
      && (ChainOk(h, es) <==> AppendAll(h, [], es) == Some(es))
      && (LoadAccepts(h, es, Head(es), AuthorityChain) <==> ChainOk(h, es))
  {
    var h := LogHashes(digest);
    LogHashesAreSound(digest);
    ThreeValidatorsAgree(h, drafts, es);
    if ChainOk(h, es) && ChainOk(h, fs) && es != [] && fs != [] && Head(es) == Head(fs) {
      TamperEvidence(h, es, fs);
    }
  }

  // ------------------------------------------------------------- batch commits

  datatype BatchCommit = BatchCommit(auditIds: seq<string>, eventCount: nat, chainHead: string, batchHash: string)

  function Ids(events: seq<Event>): seq<string> {
    seq(|events|, i requires 0 <= i < |events| => events[i].auditId)
  }

  /** Decimal text of a count. */
  function Digits(n: nat): (s: NumberText) {
    if n < 10 then [HexDigit(n)] else Digits(n / 10) + [HexDigit(n % 10)]
  }

  /** The payload whose hash a batch commits to; `dump` is the JSON form of an event. */
  function BatchPayload(dump: Event -> Json, events: seq<Event>): Json {
    Object(map[
      "message_type" := String("audit_batch_payload_v0"),
      "audit_ids" := Texts(Ids(events)),
      "event_count" := Number(Digits(|events|)),
      "chain_head" := Optional(Head(events)),
      "events" := Array(seq(|events|, i requires 0 <= i < |events| => dump(events[i])))])
  }

  /** `audit_batch_event_violation` answers with no violation. */
  ghost predicate BatchVerifies(h: Hashes, dump: Event -> Json, batch: BatchCommit, events: seq<Event>) {
    && events != [] && ChainOk(h, events)
    && batch.auditIds == Ids(events)
    && batch.eventCount == |events|
    && Head(events) == Some(batch.chainHead)
    && batch.batchHash == h.payload(BatchPayload(dump, events))
  }

  function CreateBatch(h: Hashes, dump: Event -> Json, events: seq<Event>): BatchCommit
    requires Head(events).Some?
  {
    BatchCommit(Ids(events), |events|, Head(events).value, h.payload(BatchPayload(dump, events)))
  }

  /** A created batch verifies against its own events, and a batch verifies against at most one list. */
  lemma BatchCommitsToOneList(
    h: Hashes, dump: Event -> Json, batch: BatchCommit, es: seq<Event>, fs: seq<Event>)
    requires Sound(h)
    ensures es != [] && ChainOk(h, es) ==>
            Head(es).Some? && BatchVerifies(h, dump, CreateBatch(h, dump, es), es)
    ensures BatchVerifies(h, dump, batch, es) && BatchVerifies(h, dump, batch, fs) ==> es == fs
  {
    if es != [] && ChainOk(h, es) {
      AcceptedIsLinked(h, es, |es| - 1);
    }
    if BatchVerifies(h, dump, batch, es) && BatchVerifies(h, dump, batch, fs) {
      TamperEvidence(h, es, fs);
    }
  }
}
