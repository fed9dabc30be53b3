/**
  What a stored revocation means over whole runs: it binds the gate that published it and
  every gate booted later, for good, and it binds no gate that was already running.
 */
module RevocationRuns {
  import opened Core
  import opened Conformance
  import opened Gate
  import opened GateRuns

  /** A call belongs to a running gate, and a stored revocation still to be published is in the tables. */
  ghost predicate Housekept(s: System) {
    && (forall id :: id in s.calls ==> s.calls[id].gate in s.gates)
    && (forall id :: id in s.calls && s.calls[id].Publishing? ==>
        && s.calls[id].r.leaseId == s.calls[id].lease.leaseId
        && s.calls[id].r.leaseId in s.tables.leases && s.calls[id].r.messageId in s.tables.messages)
    && (forall g :: g in s.gates ==> s.gates[g].memory.Keys == s.gates[g].loaded + s.gates[g].own)
  }

  predicate PastValidation(call: Call, g: nat, leaseId: string) {
    call.Validated? && call.gate == g && call.lease.leaseId == leaseId && call.verdict.Valid?
  }

  /** A call past validation whose three rows nobody has taken. */
  predicate StillOpen(rows: set<Row>, call: Call, g: nat, leaseId: string) {
    && PastValidation(call, g, leaseId) && call.c.authenticatedAgentId.Some?
    && AuthorizedRows(KeyOf(call.c), call.lease.nonce) !! rows
  }

  ghost predicate NoneOpen(s: System, g: nat, leaseId: string) {
    forall id :: id in s.calls ==> !StillOpen(s.rows, s.calls[id], g, leaseId)
  }

  /** Gate `g` knows of the revocation, or will when it boots. */
  ghost predicate Knows(s: System, g: nat, leaseId: string) {
    leaseId in s.tables.leases && (g in s.gates ==> leaseId in s.gates[g].memory)
  }

  /** Gate `g` knows, and no call of its own can still slip through. */
  ghost predicate Bars(s: System, g: nat, leaseId: string) {
    Knows(s, g, leaseId) && NoneOpen(s, g, leaseId)
  }

  predicate AllowsLease(entry: Logged, g: nat, leaseId: string) {
    entry.gate == g && entry.event.eventType.CommandAllowed? && entry.event.leaseId == Some(leaseId)
  }

  predicate NoneAllows(log: seq<Logged>, g: nat, leaseId: string) {
    forall i :: 0 <= i < |log| ==> !AllowsLease(log[i], g, leaseId)
  }

  /** The entries by which gate `g` allowed the lease, in order. */
  function Allows(log: seq<Logged>, g: nat, leaseId: string): seq<GateEvent> {
    if log == [] then []
    else (if AllowsLease(log[0], g, leaseId) then [log[0].event] else []) + Allows(log[1..], g, leaseId)
  }

  lemma {:induction false} AllowsOfNone(log: seq<Logged>, g: nat, leaseId: string)
    ensures NoneAllows(log, g, leaseId) <==> Allows(log, g, leaseId) == []
  {
    if log != [] {
      AllowsOfNone(log[1..], g, leaseId);
      assert NoneAllows(log, g, leaseId) <==> !AllowsLease(log[0], g, leaseId) && NoneAllows(log[1..], g, leaseId) by {
        assert forall i :: 0 < i < |log| ==> log[i] == log[1..][i - 1];
      }
    }
  }

  lemma {:induction false} AllowsOfSum(a: seq<Logged>, b: seq<Logged>, g: nat, leaseId: string)
    ensures Allows(a + b, g, leaseId) == Allows(a, g, leaseId) + Allows(b, g, leaseId)
  {
    if a == [] {
      assert a + b == b;
    } else {
      var head := if AllowsLease(a[0], g, leaseId) then [a[0].event] else [];
      assert (a + b)[0] == a[0] && (a + b)[1..] == a[1..] + b;
      AllowsOfSum(a[1..], b, g, leaseId);
      assert Allows(a + b, g, leaseId) == head + Allows(a[1..] + b, g, leaseId);
      assert Allows(a, g, leaseId) == head + Allows(a[1..], g, leaseId);
      assert head + (Allows(a[1..], g, leaseId) + Allows(b, g, leaseId))
          == head + Allows(a[1..], g, leaseId) + Allows(b, g, leaseId);
    }
  }

  /** Being revoked is the only thing the set of revoked ids decides. */
  lemma RevokedSetDecidesAlone(
    cfg: GateConfig, lease: Lease, c: Command, state: Option<RobotState>, revoked: set<string>, now: int)
    ensures ValidateLease(cfg, lease, c, state, revoked, now).Valid?
            <==> ValidateLease(cfg, lease, c, state, {}, now).Valid? && lease.leaseId !in revoked
  {
  }

  lemma RevokedKeepsHouse(s: System, step: Step, tables: Tables, out: RevokeOutput)
    requires Housekept(s) && step.BeginRevoke? && step.id !in s.calls && step.g in s.gates
    requires out.result.RevokedNow? ==>
      && step.lease.Some? && step.r.leaseId == step.lease.value.leaseId
      && tables.leases.Keys == s.tables.leases.Keys + {step.r.leaseId}
      && tables.messages == s.tables.messages[step.r.messageId := step.r.leaseId]
    ensures Housekept(AfterRevoke(s, step.id, step.g, step.r, step.lease, tables, out))
  {
  }

  lemma ScreenedKeepsHouse(s: System, step: Step, screened: Option<Output>)
    requires Housekept(s) && step.BeginEvaluate? && step.g in s.gates && (screened.None? ==> step.lease.Some?)
    ensures Housekept(AfterScreen(s, step.id, step.g, step.c, step.lease, step.state, step.now, screened))
  {
  }

  lemma PublishedKeepsHouse(s: System, id: nat, g: nat, record: RevokedLease, out: RevokeOutput)
    requires Housekept(s) && g in s.gates
    ensures Housekept(AfterPublish(s, id, g, record, out))
  {
  }

  lemma BeginKeepsHouse(s: System, step: Step)
    requires Housekept(s) && (step.BeginEvaluate? || step.BeginRevoke?)
    ensures Housekept(Apply(s, step))
  {
    if step.id !in s.calls && step.g in s.gates {
      var gate := s.gates[step.g];
      if step.BeginEvaluate? {
        ScreenedIsAuthenticated(gate.cfg, s.rows, gate.memory, step.c, step.lease, step.now);
        ScreenedKeepsHouse(s, step, Screen(gate.cfg, s.rows, gate.memory, step.c, step.lease, step.now));
      } else {
        RevokeTables(gate.cfg, s.tables, gate.memory, step.r, step.lease, step.now);
        var (tables, _, out) := Revoke(gate.cfg, s.tables, gate.memory, step.r, step.lease, step.now);
        RevokedKeepsHouse(s, step, tables, out);
      }
    }
  }

  lemma OtherKeepsHouse(s: System, step: Step)
    requires Housekept(s) && (step.Validate? || step.Commit? || step.Crash? || step.CommitAndCrash? || step.Boot?)
    ensures Housekept(Apply(s, step))
  {
  }

  lemma ApplyKeepsHouse(s: System, step: Step)
    requires Housekept(s)
    ensures Housekept(Apply(s, step))
  {
    match step
    case BeginEvaluate(_, _, _, _, _, _) => BeginKeepsHouse(s, step);
    case BeginRevoke(_, _, _, _, _) => BeginKeepsHouse(s, step);
    case Publish(id) =>
      if id in s.calls && s.calls[id].Publishing? && s.calls[id].gate in s.gates {
        var k := s.calls[id];
        PublishedKeepsHouse(s, id, k.gate, RevokedRecord(k.r, k.lease), Published(s.gates[k.gate].cfg, k.r, k.lease));
      }
    case _ => OtherKeepsHouse(s, step);
  }

  lemma {:induction false} RunKeepsHouse(s: System, steps: seq<Step>)
    requires Housekept(s)
    ensures Housekept(Run(s, steps))
    decreases |steps|
  {
    if steps != [] {
      ApplyKeepsHouse(s, steps[0]);
      RunKeepsHouse(Apply(s, steps[0]), steps[1..]);
    }
  }

  // ------------------------------------------------------------- no answer but an allow mentions an allow

  lemma ScreenAllowsNothing(
    cfg: GateConfig, rows: set<Row>, memory: map<string, RevokedLease>, c: Command, lease: Option<Lease>, auth: Verdict,
    h: nat, g: nat, leaseId: string)
    ensures var screened := ScreenAfter(cfg, rows, memory, c, lease, auth);
      screened.Some? ==> NoneAllows(LogOf(h, screened.value.events), g, leaseId)
  {
  }

  lemma FinishAllows(
    cfg: GateConfig, rows: set<Row>, memory: map<string, RevokedLease>, c: Command, lease: Lease, verdict: Verdict,
    g: nat, leaseId: string)
    requires verdict.Valid? ==> lease.leaseId != leaseId
    ensures NoneAllows(LogOf(g, Finish(cfg, rows, memory, c, lease, verdict).1.events), g, leaseId)
  {
  }

  /** A commit allows at most the one command it was asked about. */
  lemma FinishAllowsOnce(
    cfg: GateConfig, rows: set<Row>, memory: map<string, RevokedLease>, c: Command, lease: Lease, verdict: Verdict,
    g: nat, leaseId: string)
    ensures var allows := Allows(LogOf(g, Finish(cfg, rows, memory, c, lease, verdict).1.events), g, leaseId);
      |allows| <= 1 && (allows != [] ==> allows[0].command == Some(KeyOf(c)))
  {
    var out := Finish(cfg, rows, memory, c, lease, verdict).1;
    var log := LogOf(g, out.events);
    if out.result.allowed {
      assert out == Allowed(c, lease);
      assert log == [Logged(g, out.events[0])] && log[1..] == [];
    } else {
      assert NoneAllows(log, g, leaseId);
      AllowsOfNone(log, g, leaseId);
    }
  }

  lemma RevokeAllowsNothing(
    cfg: GateConfig, tables: Tables, memory: map<string, RevokedLease>, r: Revocation, lease: Option<Lease>, now: int,
    h: nat, g: nat, leaseId: string)
    ensures NoneAllows(LogOf(h, Revoke(cfg, tables, memory, r, lease, now).2.events), g, leaseId)
  {
  }

  // ------------------------------------------------------------- permanence

  /** Knowledge of the revocation stays, and no further evaluation gets past validation. */
  ghost predicate OnlyOldPass(s: System, s': System, g: nat, leaseId: string) {
    && Knows(s', g, leaseId)
    && forall id :: id in s'.calls && PastValidation(s'.calls[id], g, leaseId) ==>
        id in s.calls && s.calls[id] == s'.calls[id]
  }

  lemma ScreenedStaysKnown(s: System, step: Step, g: nat, leaseId: string, screened: Option<Output>)
    requires Knows(s, g, leaseId) && step.BeginEvaluate? && (screened.None? ==> step.lease.Some?)
    ensures OnlyOldPass(
      s, AfterScreen(s, step.id, step.g, step.c, step.lease, step.state, step.now, screened), g, leaseId)
  {
  }

  lemma ValidateStaysKnown(s: System, id: nat, g: nat, leaseId: string)
    requires Housekept(s) && Knows(s, g, leaseId)
    ensures OnlyOldPass(s, Apply(s, Validate(id)), g, leaseId) && Apply(s, Validate(id)).history == s.history
  {
    if id in s.calls && s.calls[id].Screened? && s.calls[id].gate in s.gates {
      var k := s.calls[id];
      RevokedSetDecidesAlone(s.gates[k.gate].cfg, k.lease, k.c, k.state, s.gates[k.gate].memory.Keys, k.now);
    }
  }

  lemma RevokedStaysKnown(s: System, step: Step, g: nat, leaseId: string, tables: Tables, out: RevokeOutput)
    requires Knows(s, g, leaseId) && step.BeginRevoke? && (out.result.RevokedNow? ==> step.lease.Some?)
    requires s.tables.leases.Keys <= tables.leases.Keys
    ensures OnlyOldPass(s, AfterRevoke(s, step.id, step.g, step.r, step.lease, tables, out), g, leaseId)
  {
  }

  lemma PublishedStaysKnown(s: System, id: nat, h: nat, record: RevokedLease, out: RevokeOutput, g: nat, leaseId: string)
    requires Knows(s, g, leaseId) && h in s.gates
    ensures OnlyOldPass(s, AfterPublish(s, id, h, record, out), g, leaseId)
  {
  }

  lemma PublishedAllowsNothing(cfg: GateConfig, r: Revocation, l: Lease, h: nat, g: nat, leaseId: string)
    ensures NoneAllows(LogOf(h, Published(cfg, r, l).events), g, leaseId)
  {
  }

  /** Every step but a commit: nothing is allowed, and nothing new gets past validation. */
  lemma StepStaysKnown(s: System, step: Step, g: nat, leaseId: string) returns (more: seq<Logged>)
    requires Housekept(s) && Knows(s, g, leaseId) && !step.Commit?
    ensures OnlyOldPass(s, Apply(s, step), g, leaseId)
    ensures Apply(s, step).history == s.history + more && NoneAllows(more, g, leaseId)
  {
    more := [];
    match step
    case BeginEvaluate(id, h, c, lease, state, now) =>
      if id !in s.calls && h in s.gates {
        var gate := s.gates[h];
        ScreenAllowsNothing(gate.cfg, s.rows, gate.memory, c, lease, Auth(gate.cfg, c, now), h, g, leaseId);
        ScreenedIsAuthenticated(gate.cfg, s.rows, gate.memory, c, lease, now);
        var screened := Screen(gate.cfg, s.rows, gate.memory, c, lease, now);
        ScreenedStaysKnown(s, step, g, leaseId, screened);
        if screened.Some? { more := LogOf(h, screened.value.events); }
      }
    case Validate(id) => ValidateStaysKnown(s, id, g, leaseId);
    case BeginRevoke(id, h, r, lease, now) =>
      if id !in s.calls && h in s.gates {
        var gate := s.gates[h];
        RevokeTables(gate.cfg, s.tables, gate.memory, r, lease, now);
        RevokeAllowsNothing(gate.cfg, s.tables, gate.memory, r, lease, now, h, g, leaseId);
        var (tables, _, out) := Revoke(gate.cfg, s.tables, gate.memory, r, lease, now);
        RevokedStaysKnown(s, step, g, leaseId, tables, out);
        if !out.result.RevokedNow? { more := LogOf(h, out.events); }
      }
    case Publish(id) =>
      if id in s.calls && s.calls[id].Publishing? && s.calls[id].gate in s.gates {
        var k := s.calls[id];
        var out := Published(s.gates[k.gate].cfg, k.r, k.lease);
        PublishedStaysKnown(s, id, k.gate, RevokedRecord(k.r, k.lease), out, g, leaseId);
        PublishedAllowsNothing(s.gates[k.gate].cfg, k.r, k.lease, k.gate, g, leaseId);
        more := LogOf(k.gate, out.events);
      }
    case _ =>
  }

  /** What one step allows late: at most one command, of a call past validation that ends with it. */
  ghost predicate SpendsPast(
    s: System, s': System, more: seq<Logged>, spent: seq<nat>, g: nat, leaseId: string)
  {
    && |spent| == |Allows(more, g, leaseId)| <= 1
    && forall k :: 0 <= k < |spent| ==>
        && spent[k] in s.calls && PastValidation(s.calls[spent[k]], g, leaseId) && spent[k] !in s'.calls
        && Allows(more, g, leaseId)[k].command == Some(KeyOf(s.calls[spent[k]].c))
  }

  lemma CommitSpends(s: System, id: nat, g: nat, leaseId: string) returns (more: seq<Logged>, spent: seq<nat>)
    requires Housekept(s) && Knows(s, g, leaseId)
    ensures OnlyOldPass(s, Apply(s, Commit(id)), g, leaseId)
    ensures Apply(s, Commit(id)).history == s.history + more
    ensures SpendsPast(s, Apply(s, Commit(id)), more, spent, g, leaseId)
  {
    more, spent := [], [];
    if id in s.calls && s.calls[id].Validated? && s.calls[id].gate in s.gates {
      var k := s.calls[id];
      var gate := s.gates[k.gate];
      more := LogOf(k.gate, Finish(gate.cfg, s.rows, gate.memory, k.c, k.lease, k.verdict).1.events);
      if PastValidation(k, g, leaseId) {
        FinishAllowsOnce(gate.cfg, s.rows, gate.memory, k.c, k.lease, k.verdict, g, leaseId);
        if Allows(more, g, leaseId) != [] { spent := [id]; }
      } else {
        if k.gate == g { FinishAllows(gate.cfg, s.rows, gate.memory, k.c, k.lease, k.verdict, g, leaseId); }
        AllowsOfNone(more, g, leaseId);
      }
    }
  }

  /**
    After a gate knows of a revocation, each later command it allows on that lease belongs to a
    call of its own that was already past validation then, in order, at most one per call.
   */
  ghost predicate LateAllows(s: System, late: seq<GateEvent>, spent: seq<nat>, g: nat, leaseId: string) {
    && |spent| == |late| && (forall j, k :: 0 <= j < k < |spent| ==> spent[j] != spent[k])
    && forall k :: 0 <= k < |spent| ==>
        && spent[k] in s.calls && PastValidation(s.calls[spent[k]], g, leaseId)
        && late[k].command == Some(KeyOf(s.calls[spent[k]].c))
  }

  lemma LateStep(
    s: System, s': System, more: seq<Logged>, spent: seq<nat>, late: seq<GateEvent>, rest: seq<nat>, g: nat,
    leaseId: string)
    requires OnlyOldPass(s, s', g, leaseId) && SpendsPast(s, s', more, spent, g, leaseId)
    requires LateAllows(s', late, rest, g, leaseId)
    ensures LateAllows(s, Allows(more, g, leaseId) + late, spent + rest, g, leaseId)
  {
  }

  lemma AnyStepSpends(s: System, step: Step, g: nat, leaseId: string) returns (more: seq<Logged>, spent: seq<nat>)
    requires Housekept(s) && Knows(s, g, leaseId)
    ensures OnlyOldPass(s, Apply(s, step), g, leaseId)
    ensures Apply(s, step).history == s.history + more
    ensures SpendsPast(s, Apply(s, step), more, spent, g, leaseId)
  {
    if step.Commit? {
      more, spent := CommitSpends(s, step.id, g, leaseId);
    } else {
      more := StepStaysKnown(s, step, g, leaseId);
      AllowsOfNone(more, g, leaseId);
      spent := [];
    }
  }

  /** What holds from `s` to `s'` when all commands allowed in between belong to `spent`. */
  ghost predicate OnlySpent(s: System, s': System, spent: seq<nat>, g: nat, leaseId: string) {
    && s.history <= s'.history && OnlyOldPass(s, s', g, leaseId)
    && LateAllows(s, Allows(s'.history[|s.history|..], g, leaseId), spent, g, leaseId)
  }

  lemma SpentAddsUp(
    s: System, s1: System, s2: System, more: seq<Logged>, first: seq<nat>, rest: seq<nat>, g: nat, leaseId: string)
    requires OnlyOldPass(s, s1, g, leaseId) && s1.history == s.history + more
    requires SpendsPast(s, s1, more, first, g, leaseId) && OnlySpent(s1, s2, rest, g, leaseId)
    ensures OnlySpent(s, s2, first + rest, g, leaseId)
  {
    var later := s2.history[|s1.history|..];
    assert s2.history[|s.history|..] == more + later;
    AllowsOfSum(more, later, g, leaseId);
    LateStep(s, s1, more, first, Allows(later, g, leaseId), rest, g, leaseId);
  }

  lemma {:induction false} OnlyPastAllowed(s: System, steps: seq<Step>, g: nat, leaseId: string)
    returns (spent: seq<nat>)
    requires Housekept(s) && Knows(s, g, leaseId)
    ensures OnlySpent(s, Run(s, steps), spent, g, leaseId)
    decreases |steps|
  {
    if steps == [] {
      spent := [];
    } else {
      var s1 := Apply(s, steps[0]);
      var more, first := AnyStepSpends(s, steps[0], g, leaseId);
      ApplyKeepsHouse(s, steps[0]);
      var rest := OnlyPastAllowed(s1, steps[1..], g, leaseId);
      SpentAddsUp(s, s1, Run(s1, steps[1..]), more, first, rest, g, leaseId);
      spent := first + rest;
    }
  }

  // ------------------------------------------------------------- when a late allow is still possible

  lemma FinishGrows(
    cfg: GateConfig, rows: set<Row>, memory: map<string, RevokedLease>, c: Command, lease: Lease, verdict: Verdict)
    ensures rows <= Finish(cfg, rows, memory, c, lease, verdict).0
  {
  }

  lemma StepGrowsRows(s: System, step: Step)
    ensures s.rows <= Apply(s, step).rows
  {
    if (step.Commit? || step.CommitAndCrash?) && step.id in s.calls && s.calls[step.id].Validated?
      && s.calls[step.id].gate in s.gates
    {
      var k := s.calls[step.id];
      FinishGrows(s.gates[k.gate].cfg, s.rows, s.gates[k.gate].memory, k.c, k.lease, k.verdict);
    }
  }

  lemma NoneOpenStays(s: System, s': System, g: nat, leaseId: string)
    requires NoneOpen(s, g, leaseId) && OnlyOldPass(s, s', g, leaseId) && s.rows <= s'.rows
    ensures NoneOpen(s', g, leaseId)
  {
  }

  /** A valid verdict is refused in the end exactly when a row is taken. */
  lemma FinishRefusesTaken(
    cfg: GateConfig, rows: set<Row>, memory: map<string, RevokedLease>, c: Command, lease: Lease, g: nat, leaseId: string)
    requires c.authenticatedAgentId.None? || !(AuthorizedRows(KeyOf(c), lease.nonce) !! rows)
    ensures NoneAllows(LogOf(g, Finish(cfg, rows, memory, c, lease, Valid).1.events), g, leaseId)
  {
    var k := KeyOf(c);
    assert AuthorizedRows(k, lease.nonce) == {IdRow(k), NonceRow(k), LeaseRow(lease.nonce)};
    assert RememberAuthorized(rows, c, lease).1.Invalid?;
  }

  lemma CommitOfNoneOpen(s: System, id: nat, g: nat, leaseId: string) returns (more: seq<Logged>)
    requires NoneOpen(s, g, leaseId)
    ensures Apply(s, Commit(id)).history == s.history + more && NoneAllows(more, g, leaseId)
  {
    more := [];
    if id in s.calls && s.calls[id].Validated? && s.calls[id].gate in s.gates {
      var k := s.calls[id];
      var gate := s.gates[k.gate];
      if PastValidation(k, g, leaseId) {
        FinishRefusesTaken(gate.cfg, s.rows, gate.memory, k.c, k.lease, g, leaseId);
      } else if k.gate == g {
        FinishAllows(gate.cfg, s.rows, gate.memory, k.c, k.lease, k.verdict, g, leaseId);
      }
      more := LogOf(k.gate, Finish(gate.cfg, s.rows, gate.memory, k.c, k.lease, k.verdict).1.events);
    }
  }

  lemma StepOfNoneOpen(s: System, step: Step, g: nat, leaseId: string) returns (more: seq<Logged>)
    requires Housekept(s) && Knows(s, g, leaseId) && NoneOpen(s, g, leaseId)
    ensures Apply(s, step).history == s.history + more && NoneAllows(more, g, leaseId)
    ensures Knows(Apply(s, step), g, leaseId) && NoneOpen(Apply(s, step), g, leaseId)
  {
    if step.Commit? {
      more := CommitOfNoneOpen(s, step.id, g, leaseId);
    } else {
      more := StepStaysKnown(s, step, g, leaseId);
    }
    var _, _ := AnyStepSpends(s, step, g, leaseId);
    StepGrowsRows(s, step);
    NoneOpenStays(s, Apply(s, step), g, leaseId);
  }

  /**
    Revocation is permanent. Once a gate is barred from a lease no continuation of the run,
    with any restarts, makes that gate allow it again.
   */
  lemma {:induction false} RevocationPermanent(s: System, steps: seq<Step>, g: nat, leaseId: string)
    requires Housekept(s) && Bars(s, g, leaseId)
    ensures Bars(Run(s, steps), g, leaseId)
    ensures var history := Run(s, steps).history;
      s.history <= history && NoneAllows(history[|s.history|..], g, leaseId)
    decreases |steps|
  {
    if steps != [] {
      var s1 := Apply(s, steps[0]);
      var more := StepOfNoneOpen(s, steps[0], g, leaseId);
      ApplyKeepsHouse(s, steps[0]);
      RevocationPermanent(s1, steps[1..], g, leaseId);
      var end := Run(s1, steps[1..]).history;
      assert end[|s.history|..] == more + end[|s1.history|..];
    }
  }

  /** Some continuation of `s` has gate `g` allow the lease. */
  ghost predicate CanStillAllow(s: System, g: nat, leaseId: string) {
    exists steps :: s.history <= Run(s, steps).history && !NoneAllows(Run(s, steps).history[|s.history|..], g, leaseId)
  }

  lemma OpenCommitAllows(s: System, id: nat, g: nat, leaseId: string)
    requires id in s.calls && s.calls[id].gate in s.gates && StillOpen(s.rows, s.calls[id], g, leaseId)
    ensures CanStillAllow(s, g, leaseId)
  {
    var k := s.calls[id];
    var key := KeyOf(k.c);
    assert IdRow(key) in AuthorizedRows(key, k.lease.nonce) && NonceRow(key) in AuthorizedRows(key, k.lease.nonce);
    assert LeaseRow(k.lease.nonce) in AuthorizedRows(key, k.lease.nonce);
    var s' := Apply(s, Commit(id));
    assert s'.history == s.history + LogOf(g, Allowed(k.c, k.lease).events);
    assert AllowsLease(s'.history[|s.history|..][0], g, leaseId);
    assert Run(s, [Commit(id)]) == s' by { assert Run(s', [Commit(id)][1..]) == s'; }
  }

  /**
    Exactly when a gate that knows of a revocation can still allow the lease: when a call of its
    own was past validation by then and none of the three rows of that call has been taken.
   */
  lemma LateAllowExactly(s: System, g: nat, leaseId: string)
    requires Housekept(s) && Knows(s, g, leaseId)
    ensures CanStillAllow(s, g, leaseId) <==> exists id :: id in s.calls && StillOpen(s.rows, s.calls[id], g, leaseId)
    ensures CanStillAllow(s, g, leaseId) <==> !Bars(s, g, leaseId)
  {
    if NoneOpen(s, g, leaseId) {
      forall steps
        ensures s.history <= Run(s, steps).history
        ensures NoneAllows(Run(s, steps).history[|s.history|..], g, leaseId)
      {
        RevocationPermanent(s, steps, g, leaseId);
      }
    } else {
      var id :| id in s.calls && StillOpen(s.rows, s.calls[id], g, leaseId);
      OpenCommitAllows(s, id, g, leaseId);
    }
  }

  predicate PublishesBy(call: Call, g: nat, leaseId: string) {
    call.Publishing? && call.gate == g && call.r.leaseId == leaseId
  }

  lemma PublishBars(s: System, id: nat, g: nat, leaseId: string)
    requires Housekept(s) && id in s.calls && PublishesBy(s.calls[id], g, leaseId)
    ensures Housekept(Apply(s, Publish(id))) && Knows(Apply(s, Publish(id)), g, leaseId)
    ensures Bars(Apply(s, Publish(id)), g, leaseId) <==> NoneOpen(s, g, leaseId)
  {
    ApplyKeepsHouse(s, Publish(id));
    var s' := Apply(s, Publish(id));
    assert s'.calls == s.calls - {id} && s'.rows == s.rows;
    forall x | x in s.calls
      ensures StillOpen(s.rows, s.calls[x], g, leaseId) ==> x in s'.calls && s'.calls[x] == s.calls[x]
    {
      assert x != id ==> x in s'.calls;
    }
  }

  /**
    Who is barred: in a reachable state, every gate that is not running when the revocation is
    in the store, and the gate that publishes it exactly when none of its own calls is still open;
    even otherwise it knows, and `OnlyPastAllowed` says what it may still allow.
   */
  lemma WhoIsBarred(rows0: set<Row>, tables0: Tables, steps: seq<Step>, g: nat, leaseId: string)
    ensures var s := Run(Start(rows0, tables0), steps);
      && Housekept(s)
      && (g !in s.gates && leaseId in s.tables.leases ==> Bars(s, g, leaseId))
      && (forall id :: id in s.calls && PublishesBy(s.calls[id], g, leaseId) ==>
          (Bars(Apply(s, Publish(id)), g, leaseId) <==> NoneOpen(s, g, leaseId)))
      && (forall id :: id in s.calls && PublishesBy(s.calls[id], g, leaseId) ==>
          Housekept(Apply(s, Publish(id))) && Knows(Apply(s, Publish(id)), g, leaseId))
  {
    RunKeepsHouse(Start(rows0, tables0), steps);
    var s := Run(Start(rows0, tables0), steps);
    forall id | id in s.calls && PublishesBy(s.calls[id], g, leaseId)
      ensures Housekept(Apply(s, Publish(id))) && Knows(Apply(s, Publish(id)), g, leaseId)
      ensures Bars(Apply(s, Publish(id)), g, leaseId) <==> NoneOpen(s, g, leaseId)
    {
      PublishBars(s, id, g, leaseId);
    }
  }

  /** A step that may change what gate `g` knows. */
  ghost predicate Touches(s: System, step: Step, g: nat) {
    || (step.Crash? && step.g == g)
    || (step.CommitAndCrash? && step.id in s.calls && s.calls[step.id].gate == g)
    || (step.Publish? && step.id in s.calls && s.calls[step.id].gate == g)
  }

  ghost predicate LeavesAlone(s: System, steps: seq<Step>, g: nat)
    decreases |steps|
  {
    steps == [] || (!Touches(s, steps[0], g) && LeavesAlone(Apply(s, steps[0]), steps[1..], g))
  }

  lemma StepLeavesGate(s: System, step: Step, g: nat)
    requires g in s.gates && !Touches(s, step, g)
    ensures var s' := Apply(s, step);
      g in s'.gates && s'.gates[g] == s.gates[g]
  {
  }

  lemma {:induction false} RunLeavesGate(s: System, steps: seq<Step>, g: nat)
    requires g in s.gates && LeavesAlone(s, steps, g)
    ensures var s' := Run(s, steps);
      g in s'.gates && s'.gates[g] == s.gates[g]
    decreases |steps|
  {
    if steps != [] {
      StepLeavesGate(s, steps[0], g);
      RunLeavesGate(Apply(s, steps[0]), steps[1..], g);
    }
  }

  /**
    The limit of the guarantee: a running gate learns of no revocation but its own. Whatever
    other gates store and publish, its verdict on every lease stays what it was, and it
    refuses as revoked exactly the ids it loaded at boot or published itself.
   */
  lemma RunningGateLearnsNothing(
    s: System, steps: seq<Step>, g: nat, lease: Lease, c: Command, state: Option<RobotState>, now: int)
    requires Housekept(s) && g in s.gates && LeavesAlone(s, steps, g)
    ensures var s' := Run(s, steps);
      && g in s'.gates && s'.gates[g] == s.gates[g]
      && (ValidateLease(s'.gates[g].cfg, lease, c, state, s'.gates[g].memory.Keys, now).Valid? <==>
          && ValidateLease(s.gates[g].cfg, lease, c, state, {}, now).Valid?
          && lease.leaseId !in s.gates[g].loaded && lease.leaseId !in s.gates[g].own)
  {
    RunLeavesGate(s, steps, g);
    RevokedSetDecidesAlone(s.gates[g].cfg, lease, c, state, s.gates[g].memory.Keys, now);
  }
}
