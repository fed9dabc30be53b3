/** The durable stores and the command gate as objects; every method computes its function in `Gate`. */
module GateObjects {
  import opened Core
  import opened Conformance
  import opened Gate
  import PayloadBudget

  /** The replay table. A transaction that meets an existing key leaves no trace. */
  class CommandReplayCache {
    var rows: set<Row>

    constructor (stored: set<Row>)
      ensures rows == stored
    {
      rows := stored;
    }

    /** The early look predicts the transactions: a command found here can be consumed by neither of them. */
    method Contains(c: Command) returns (found: bool)
      ensures found <==> c.authenticatedAgentId.Some? && !Gate.Remember(rows, c).1
      ensures found ==> forall lease: Lease :: RememberAuthorized(rows, c, lease) == (rows, Invalid(CommandReplayed))
    {
      if c.authenticatedAgentId.None? { return false; }
      found := IdRow(KeyOf(c)) in rows || NonceRow(KeyOf(c)) in rows;
    }

    method Remember(c: Command) returns (ok: bool)
      modifies this
      ensures (rows, ok) == Gate.Remember(old(rows), c)
    {
      if c.authenticatedAgentId.None? { return false; }
      var transaction := rows;
      if IdRow(KeyOf(c)) in transaction { return false; }
      transaction := transaction + {IdRow(KeyOf(c))};
      if NonceRow(KeyOf(c)) in transaction { return false; }
      transaction := transaction + {NonceRow(KeyOf(c))};
      assert transaction == rows + CommandRows(KeyOf(c));
      rows := transaction;
      return true;
    }

    method RememberAuthorizedUse(c: Command, lease: Lease) returns (use: Verdict)
      modifies this
      ensures (rows, use) == Gate.RememberAuthorized(old(rows), c, lease)
    {
      if c.authenticatedAgentId.None? { return Invalid(CommandReplayed); }
      var entries := [
        (IdRow(KeyOf(c)), CommandReplayed),
        (NonceRow(KeyOf(c)), CommandReplayed),
        (LeaseRow(lease.nonce), LeaseNonceReplayed)];
      var transaction := rows;
      for i := 0 to 3
        invariant forall j :: 0 <= j < i ==> entries[j].0 !in rows
        invariant transaction == rows + set j | 0 <= j < i :: entries[j].0
        invariant rows == old(rows)
      {
        if entries[i].0 in transaction {
          assert entries[i].0 in rows;
          assert i == 0 || i == 1 || i == 2;
          assert i > 0 ==> entries[0].0 !in rows;
          assert i > 1 ==> entries[1].0 !in rows;
          return Invalid(entries[i].1);
        }
        transaction := transaction + {entries[i].0};
      }
      assert entries[0].0 in transaction && entries[1].0 in transaction && entries[2].0 in transaction;
      assert transaction == rows + AuthorizedRows(KeyOf(c), lease.nonce);
      rows := transaction;
      return Valid;
    }
  }

  /** The two revocation tables. */
  class RevocationStore {
    var tables: Tables

    constructor (stored: Tables)
      ensures tables == stored
    {
      tables := stored;
    }

    method LoadAll() returns (leases: map<string, RevokedLease>)
      ensures leases == tables.leases
    {
      leases := tables.leases;
    }

    method Record(r: RevokedLease) returns (ok: bool)
      modifies this
      ensures ok == Gate.Record(old(tables), r).Some?
      ensures tables == if ok then Gate.Record(old(tables), r).value else old(tables)
    {
      if r.revocationId in tables.messages { return false; }
      tables := tables.(messages := tables.messages[r.revocationId := r.leaseId]);
      tables := tables.(leases := tables.leases[r.leaseId := r]);
      return true;
    }
  }

  /** A declaration, if any, is the last thing an answer records. */
  predicate Reportable(out: Output) {
    out.declared == [] || (|out.declared| == 1 && |out.events| >= 1
      && out.events == out.events[..|out.events| - 1] + [FallbackEvent(out.declared[0])])
  }

  lemma FinishReportable(
    cfg: GateConfig, rows: set<Row>, memory: map<string, RevokedLease>, c: Command, lease: Lease, verdict: Verdict)
    ensures Reportable(Finish(cfg, rows, memory, c, lease, verdict).1)
  {
  }

  class CommandGate {
    const cfg: GateConfig
    const replay: CommandReplayCache
    const store: RevocationStore
    var revocations: map<string, RevokedLease>
    var fallbackEvents: seq<Declaration>
    var audit: seq<GateEvent>

    /** The in-memory revocations start as what the store holds. */
    constructor (cfg: GateConfig, replay: CommandReplayCache, store: RevocationStore)
      requires ValidConfig(cfg)
      ensures this.cfg == cfg && this.replay == replay && this.store == store
      ensures revocations == store.tables.leases && fallbackEvents == [] && audit == []
    {
      this.cfg, this.replay, this.store := cfg, replay, store;
      fallbackEvents, audit := [], [];
      new;
      revocations := store.LoadAll();
    }

    /** The gate holds every stored revocation, record for record. */
    predicate InSync()
      reads this, store
    {
      revocations == store.tables.leases
    }

    method EmitFallback(d: Declaration)
      modifies this
      ensures fallbackEvents == old(fallbackEvents) + [d]
      ensures audit == old(audit) + [FallbackEvent(d)]
      ensures revocations == old(revocations)
    {
      fallbackEvents := fallbackEvents + [d];
      audit := audit + [FallbackEvent(d)];
    }

    /** Record an answer and the fallback it declares, and hand it back. */
    method Answer(out: Output) returns (result: GateResult)
      modifies this
      requires Reportable(out)
      ensures result == out.result
      ensures audit == old(audit) + out.events
      ensures fallbackEvents == old(fallbackEvents) + out.declared
      ensures revocations == old(revocations)
    {
      if out.declared == [] {
        audit := audit + out.events;
      } else {
        audit := audit + out.events[..|out.events| - 1];
        EmitFallback(out.declared[0]);
      }
      result := out.result;
    }

    /** The end of `evaluate`: consume what the verdict on the lease consumes, and answer. */
    method Settle(c: Command, lease: Lease, verdict: Verdict) returns (out: Output)
      modifies replay
      ensures (replay.rows, out) == Finish(cfg, old(replay.rows), revocations, c, lease, verdict)
    {
      if verdict.Valid? {
        var use := replay.RememberAuthorizedUse(c, lease);
        out := if use.Valid? then Allowed(c, lease)
               else Reject(cfg, revocations, c, Some(lease), use.reason, false);
      } else {
        var ok := replay.Remember(c);
        out := if ok then Reject(cfg, revocations, c, Some(lease), verdict.reason, true)
               else Reject(cfg, revocations, c, Some(lease), CommandReplayed, false);
      }
    }

    /** `evaluate`: decide on a command, consume what the decision consumes, and record it. */
    method Evaluate(c: Command, lease: Option<Lease>, state: Option<RobotState>, now: int) returns (result: GateResult)
      modifies this, replay
      ensures var (rows, out) := Gate.Evaluate(cfg, old(replay.rows), old(revocations), c, lease, state, now);
        && replay.rows == rows && result == out.result
        && audit == old(audit) + out.events
        && fallbackEvents == old(fallbackEvents) + out.declared
      ensures revocations == old(revocations)
      ensures old(InSync()) ==> InSync()
    {
      var over := PayloadBudget.PythonBudgetViolation(c.payload);
      var auth := AuthVerdict(cfg, c, !over, now);
      if auth.Invalid? {
        result := Answer(RejectUntrusted(c, auth.reason));
        return;
      }
      if c.edgeAgentId != cfg.localEdgeAgentId || (lease.Some? && lease.value.edgeAgentId != cfg.localEdgeAgentId) {
        result := Answer(RejectEdge(cfg, c, lease));
        return;
      }
      var seen := replay.Contains(c);
      if seen {
        result := Answer(Reject(cfg, revocations, c, lease, CommandReplayed, false));
        return;
      }
      if lease.None? {
        result := Answer(Reject(cfg, revocations, c, lease, NoLease, false));
        return;
      }
      var verdict := ValidateLease(cfg, lease.value, c, state, revocations.Keys, now);
      FinishReportable(cfg, replay.rows, revocations, c, lease.value, verdict);
      var out := Settle(c, lease.value, verdict);
      result := Answer(out);
    }

    /** `revoke` with a revocation message. A sole writer's memory stays equal to the store. */
    method Revoke(r: Revocation, lease: Option<Lease>, now: int) returns (result: RevokeResult)
      modifies this, store
      ensures var (tables, memory, out) := Gate.Revoke(cfg, old(store.tables), old(revocations), r, lease, now);
        && store.tables == tables && revocations == memory && result == out.result
        && audit == old(audit) + out.events
        && fallbackEvents == old(fallbackEvents) + out.declared
      ensures old(InSync()) ==> InSync()
    {
      if lease.None? {
        audit := audit + Gate.Revoke(cfg, store.tables, revocations, r, lease, now).2.events;
        return Raised(RevocationContextRequired);
      }
      var l := lease.value;
      var verdict := RevocationVerdict(cfg, r, l, now);
      if verdict.Invalid? {
        audit := audit + [RejectedEvent(r, l, verdict.reason)];
        return Raised(verdict.reason);
      }
      var record := RevokedRecord(r, l);
      var ok := store.Record(record);
      if !ok {
        audit := audit + [RejectedEvent(r, l, RevocationReplayed)];
        return AlreadyAccepted;
      }
      revocations := revocations[record.leaseId := record];
      audit := audit + [RevokedEvent(cfg, r, l)];
      var d := RevocationDeclaration(cfg, r, l);
      EmitFallback(d);
      return RevokedNow(d);
    }
  }
}
