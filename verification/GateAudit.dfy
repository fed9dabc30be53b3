/**
  The gate's events in the hash-chained log: drafted with fresh ids, what any gate records in
  any run is accepted event by event, and the result is a chain that holds them in order.
 */
module GateAudit {
  import opened Core
  import opened Json
  import opened Gate
  import opened GateRuns
  import A = AuditRecord
  import Log = Audit

  /** What the clock, the id source and the gate's payload formatting add to an event. */
  datatype Stamp = Stamp(
    messageId: string, auditId: string, createdAt: string, summary: string, payload: Json, stateRefs: seq<string>,
    relatedMessageIds: seq<string>)

  /** `AuditLog.record`: the commit handed to `append`, its payload hash already set. */
  function Drafted(h: A.Hashes, e: GateEvent, x: Stamp): A.Event {
    A.Event("0.0.1-draft", x.messageId, "audit_commit", x.auditId, e.correlationId, x.createdAt, e.eventType, e.actorId,
            e.robotId, e.missionId, x.summary, x.payload, h.payload(x.payload), e.authorityRelevant,
            "local_hash_chain_v0", None, None, None, None, x.stateRefs, x.relatedMessageIds)
  }

  function Drafts(h: A.Hashes, events: seq<GateEvent>, stamps: seq<Stamp>): seq<A.Event>
    requires |events| == |stamps|
  {
    seq(|events|, i requires 0 <= i < |events| => Drafted(h, events[i], stamps[i]))
  }

  predicate AllComplete(events: seq<GateEvent>) {
    forall i :: 0 <= i < |events| ==> ContextComplete(events[i])
  }

  /** Ids that neither repeat nor occur in the log. */
  predicate FreshIds(log: seq<A.Event>, stamps: seq<Stamp>) {
    && (forall i, j :: 0 <= i < j < |stamps| ==> stamps[i].auditId != stamps[j].auditId)
    && (forall i, j :: 0 <= i < |log| && 0 <= j < |stamps| ==> log[i].auditId != stamps[j].auditId)
  }

  /** The draft as it stands in the log: only the two links are filled in. */
  predicate CommittedFrom(draft: A.Event, committed: A.Event) {
    committed == draft.(previousAuditHash := committed.previousAuditHash, integrityProof := committed.integrityProof)
  }

  /** The audit event carries what the gate recorded and what clock and id source added. */
  predicate Carries(h: A.Hashes, a: A.Event, e: GateEvent, x: Stamp) {
    && a.eventType == e.eventType && a.actorId == e.actorId && a.robotId == e.robotId && a.missionId == e.missionId
    && a.correlationId == e.correlationId && a.authorityRelevant == e.authorityRelevant
    && a.messageId == x.messageId && a.auditId == x.auditId && a.createdAt == x.createdAt && a.summary == x.summary
    && a.payload == x.payload && a.payloadHash == h.payload(x.payload)
    && a.stateRefs == x.stateRefs && a.relatedMessageIds == x.relatedMessageIds
    && a.messageType == "audit_commit" && a.protocolVersion == "0.0.1-draft"
    && a.integrityProfile == "local_hash_chain_v0" && a.policyId == None && a.policyDigest == None
  }

  lemma DraftIsCommitted(h: A.Hashes, log: seq<A.Event>, e: GateEvent, x: Stamp)
    requires A.IgnoresLinks(h) && Log.ChainOk(h, log) && ContextComplete(e)
    requires forall i :: 0 <= i < |log| ==> log[i].auditId != x.auditId
    ensures var committed := Log.Committed(h, log, Drafted(h, e, x));
      && committed.Some? && CommittedFrom(Drafted(h, e, x), committed.value)
      && Log.ChainOk(h, log + [committed.value])
  {
    Log.CommittedExtendsChain(h, log, Drafted(h, e, x));
  }

  /** The log after appending: what was there, then the drafts in order, linked. */
  ghost predicate Holds(h: A.Hashes, log: seq<A.Event>, drafts: seq<A.Event>, result: Option<seq<A.Event>>) {
    && result.Some? && Log.ChainOk(h, result.value) && |result.value| == |log| + |drafts| && log <= result.value
    && forall i :: 0 <= i < |drafts| ==> CommittedFrom(drafts[i], result.value[|log| + i])
  }

  lemma {:induction false} DraftsAreAccepted(
    h: A.Hashes, log: seq<A.Event>, events: seq<GateEvent>, stamps: seq<Stamp>)
    requires A.IgnoresLinks(h) && Log.ChainOk(h, log) && |events| == |stamps|
    requires AllComplete(events) && FreshIds(log, stamps)
    ensures Holds(h, log, Drafts(h, events, stamps), Log.AppendAll(h, log, Drafts(h, events, stamps)))
    decreases |events|
  {
    if events != [] {
      var drafts := Drafts(h, events, stamps);
      DraftIsCommitted(h, log, events[0], stamps[0]);
      var longer := log + [Log.Committed(h, log, drafts[0]).value];
      assert drafts[1..] == Drafts(h, events[1..], stamps[1..]);
      DraftsAreAccepted(h, longer, events[1..], stamps[1..]);
      var result := Log.AppendAll(h, longer, drafts[1..]);
      forall i | 0 <= i < |drafts| ensures CommittedFrom(drafts[i], result.value[|log| + i]) {
        if i > 0 { assert drafts[i] == drafts[1..][i - 1]; }
      }
    }
  }

  lemma HeldAreCarried(
    h: A.Hashes, log: seq<A.Event>, events: seq<GateEvent>, stamps: seq<Stamp>, result: Option<seq<A.Event>>)
    requires |events| == |stamps| && Holds(h, log, Drafts(h, events, stamps), result)
    ensures forall i :: 0 <= i < |events| ==> Carries(h, result.value[|log| + i], events[i], stamps[i])
  {
    forall i | 0 <= i < |events| ensures Carries(h, result.value[|log| + i], events[i], stamps[i]) {
      assert CommittedFrom(Drafts(h, events, stamps)[i], result.value[|log| + i]);
    }
  }

  // ------------------------------------------------------------- every run

  ghost predicate HistoryComplete(history: seq<Logged>) {
    forall i :: 0 <= i < |history| ==> ContextComplete(history[i].event)
  }

  lemma LogKeepsComplete(history: seq<Logged>, g: nat, events: seq<GateEvent>)
    requires HistoryComplete(history) && AllComplete(events)
    ensures HistoryComplete(history + LogOf(g, events))
  {
  }

  lemma StepKeepsComplete(s: System, step: Step)
    requires HistoryComplete(s.history)
    ensures HistoryComplete(Apply(s, step).history)
  {
    match step
    case BeginEvaluate(id, g, c, lease, state, now) =>
      if id !in s.calls && g in s.gates {
        var gate := s.gates[g];
        ScreenSharesGroup(gate.cfg, s.rows, gate.memory, c, lease, Auth(gate.cfg, c, now));
        var screened := Screen(gate.cfg, s.rows, gate.memory, c, lease, now);
        if screened.Some? { LogKeepsComplete(s.history, g, screened.value.events); }
      }
    case Commit(id) =>
      if id in s.calls && s.calls[id].Validated? && s.calls[id].gate in s.gates {
        var k := s.calls[id];
        var gate := s.gates[k.gate];
        FinishSharesGroup(gate.cfg, s.rows, gate.memory, k.c, k.lease, k.verdict);
        LogKeepsComplete(s.history, k.gate,
                         Finish(gate.cfg, s.rows, gate.memory, k.c, k.lease, k.verdict).1.events);
      }
    case BeginRevoke(id, g, r, lease, now) =>
      if id !in s.calls && g in s.gates {
        var gate := s.gates[g];
        RevocationSharesGroup(gate.cfg, s.tables, gate.memory, r, lease, now);
        var out := Revoke(gate.cfg, s.tables, gate.memory, r, lease, now).2;
        if !out.result.RevokedNow? { LogKeepsComplete(s.history, g, out.events); }
      }
    case Publish(id) =>
      if id in s.calls && s.calls[id].Publishing? && s.calls[id].gate in s.gates {
        var k := s.calls[id];
        LogKeepsComplete(s.history, k.gate, Published(s.gates[k.gate].cfg, k.r, k.lease).events);
      }
    case _ =>
  }

  lemma {:induction false} RunKeepsComplete(s: System, steps: seq<Step>)
    requires HistoryComplete(s.history)
    ensures HistoryComplete(Run(s, steps).history)
    decreases |steps|
  {
    if steps != [] {
      StepKeepsComplete(s, steps[0]);
      RunKeepsComplete(Apply(s, steps[0]), steps[1..]);
    }
  }

  /** What gate `g` recorded, in order. */
  function RecordedBy(history: seq<Logged>, g: nat): seq<GateEvent> {
    if history == [] then []
    else
      var last := history[|history| - 1];
      RecordedBy(history[..|history| - 1], g) + if last.gate == g then [last.event] else []
  }

  lemma {:induction false} RecordedAreComplete(history: seq<Logged>, g: nat)
    requires HistoryComplete(history)
    ensures AllComplete(RecordedBy(history, g))
  {
    if history != [] {
      RecordedAreComplete(history[..|history| - 1], g);
    }
  }

  /**
    The log accepts the gate. In every run, whatever a gate recorded is accepted by an audit log
    that gives it fresh ids, appended to any chain: nothing is refused, the result is a chain,
    and it holds the gate's events in order, each with all that the gate recorded.
   */
  lemma LogAcceptsGate(
    rows0: set<Row>, tables0: Tables, steps: seq<Step>, g: nat, h: A.Hashes, log: seq<A.Event>, stamps: seq<Stamp>)
    requires A.IgnoresLinks(h) && Log.ChainOk(h, log) && FreshIds(log, stamps)
    requires |stamps| == |RecordedBy(Run(Start(rows0, tables0), steps).history, g)|
    ensures var events := RecordedBy(Run(Start(rows0, tables0), steps).history, g);
      && Holds(h, log, Drafts(h, events, stamps), Log.AppendAll(h, log, Drafts(h, events, stamps)))
      && forall i :: 0 <= i < |events| ==>
           Carries(h, Log.AppendAll(h, log, Drafts(h, events, stamps)).value[|log| + i], events[i], stamps[i])
  {
    RunKeepsComplete(Start(rows0, tables0), steps);
    var history := Run(Start(rows0, tables0), steps).history;
    RecordedAreComplete(history, g);
    DraftsAreAccepted(h, log, RecordedBy(history, g), stamps);
    HeldAreCarried(h, log, RecordedBy(history, g), stamps,
                   Log.AppendAll(h, log, Drafts(h, RecordedBy(history, g), stamps)));
  }
}
