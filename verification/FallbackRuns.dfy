/**
  Fallback declarations over whole runs: each revocation id and each consumed command key
  causes at most one, across gates and restarts, and the audit log holds exactly those
  that were emitted, in order.
 */
module FallbackRuns {
  import opened Core
  import opened Conformance
  import opened Gate
  import opened GateRuns

  /** Two causes that can never be the same authority decision twice. */
  predicate Apart(a: Origin, b: Origin) {
    match (a, b)
    case (FromRevocation(m), FromRevocation(n)) => m != n
    case (FromCommand(k), FromCommand(l)) => CommandRows(k) !! CommandRows(l)
    case _ => true
  }

  /** The stores remember the cause, and no call is still about to declare for it. */
  ghost predicate Spent(s: System, cause: Origin) {
    match cause
    case FromRevocation(m) =>
      m in s.tables.messages && forall id :: id in s.calls && s.calls[id].Publishing? ==> s.calls[id].r.messageId != m
    case FromCommand(k) => CommandRows(k) <= s.rows
  }

  ghost predicate CausesSpent(s: System) {
    forall i :: 0 <= i < |s.emissions| ==> Spent(s, s.emissions[i].origin)
  }

  predicate PairwiseApart(emissions: seq<Emission>) {
    forall i, j :: 0 <= i < j < |emissions| ==> Apart(emissions[i].origin, emissions[j].origin)
  }

  /** Revocations about to be published are stored, each under its own id. */
  ghost predicate PublishingDistinct(s: System) {
    && (forall id :: id in s.calls && s.calls[id].Publishing? ==> s.calls[id].r.messageId in s.tables.messages)
    && (forall a, b :: a in s.calls && b in s.calls && a != b && s.calls[a].Publishing? && s.calls[b].Publishing? ==>
        s.calls[a].r.messageId != s.calls[b].r.messageId)
  }

  function Fallbacks(history: seq<Logged>): seq<GateEvent> {
    if history == [] then []
    else
      var last := history[|history| - 1].event;
      Fallbacks(history[..|history| - 1]) + if last.eventType.FallbackDeclared? then [last] else []
  }

  function Declared(emissions: seq<Emission>): seq<GateEvent> {
    seq(|emissions|, i requires 0 <= i < |emissions| => FallbackEvent(emissions[i].declaration))
  }

  /** What a declaration says of its cause: which revocation it names, and why. */
  predicate NamesCause(e: Emission) {
    match e.origin
    case FromRevocation(m) => e.declaration.revocationId == Some(m)
    case FromCommand(_) => e.declaration.revocationId.Some? <==> e.declaration.trigger.LeaseRevoked?
  }

  predicate CausesNamed(emissions: seq<Emission>) {
    forall i :: 0 <= i < |emissions| ==> NamesCause(emissions[i])
  }

  ghost predicate FallbackInv(s: System) {
    && CausesNamed(s.emissions)
    && CausesSpent(s) && PairwiseApart(s.emissions) && PublishingDistinct(s)
    && Fallbacks(s.history) == Declared(s.emissions)
  }

  // ------------------------------------------------------------- what one answer declares

  /** At most one declaration, logged last. */
  predicate DeclaresLast(events: seq<GateEvent>, declared: seq<Declaration>) {
    && |declared| <= 1 && 1 <= |events| == 1 + |declared|
    && !events[0].eventType.FallbackDeclared?
    && (declared != [] ==> events[1] == FallbackEvent(declared[0]))
  }

  lemma ScreenDeclares(
    cfg: GateConfig, rows: set<Row>, memory: map<string, RevokedLease>, c: Command, lease: Option<Lease>, auth: Verdict)
    ensures var screened := ScreenAfter(cfg, rows, memory, c, lease, auth);
      screened.Some? ==> screened.value.declared == [] && DeclaresLast(screened.value.events, [])
  {
  }

  lemma FinishDeclares(
    cfg: GateConfig, rows: set<Row>, memory: map<string, RevokedLease>, c: Command, lease: Lease, verdict: Verdict)
    requires c.authenticatedAgentId.Some?
    ensures var (rows', out) := Finish(cfg, rows, memory, c, lease, verdict);
      && rows <= rows' && DeclaresLast(out.events, out.declared)
      && (out.declared != [] ==> rows !! CommandRows(KeyOf(c)) && CommandRows(KeyOf(c)) <= rows')
      && CausesNamed(EmissionsOf(FromCommand(KeyOf(c)), out.declared))
  {
  }

  lemma RevokeDeclares(
    cfg: GateConfig, tables: Tables, memory: map<string, RevokedLease>, r: Revocation, lease: Option<Lease>, now: int)
    ensures var out := Revoke(cfg, tables, memory, r, lease, now).2;
      !out.result.RevokedNow? ==> out.declared == [] && DeclaresLast(out.events, [])
  {
  }

  lemma LogDeclares(history: seq<Logged>, emissions: seq<Emission>, g: nat, cause: Origin, events: seq<GateEvent>,
                    declared: seq<Declaration>)
    requires Fallbacks(history) == Declared(emissions) && DeclaresLast(events, declared)
    ensures Fallbacks(history + LogOf(g, events)) == Declared(emissions + EmissionsOf(cause, declared))
  {
    var first := history + [Logged(g, events[0])];
    assert first[..|first| - 1] == history;
    if declared == [] {
      assert history + LogOf(g, events) == first;
      assert emissions + EmissionsOf(cause, declared) == emissions;
    } else {
      var both := first + [Logged(g, events[1])];
      assert both[..|both| - 1] == first;
      assert history + LogOf(g, events) == both;
      assert emissions + EmissionsOf(cause, declared) == emissions + [Emission(cause, declared[0])];
      assert Declared(emissions + [Emission(cause, declared[0])]) == Declared(emissions) + [FallbackEvent(declared[0])];
    }
  }

  /** A new emission whose cause is apart from everything spent before. */
  lemma EmitOne(s: System, s': System, cause: Origin, declared: seq<Declaration>)
    requires CausesSpent(s) && PairwiseApart(s.emissions) && |declared| <= 1
    requires CausesNamed(s.emissions) && CausesNamed(EmissionsOf(cause, declared))
    requires s'.emissions == s.emissions + EmissionsOf(cause, declared)
    requires forall c :: Spent(s, c) ==> Spent(s', c)
    requires declared != [] ==> Spent(s', cause) && forall c :: Spent(s, c) ==> Apart(c, cause)
    ensures CausesSpent(s') && PairwiseApart(s'.emissions) && CausesNamed(s'.emissions)
  {
    forall i | 0 <= i < |s'.emissions| ensures Spent(s', s'.emissions[i].origin) {
      if i < |s.emissions| { assert s'.emissions[i] == s.emissions[i]; }
    }
    forall i, j | 0 <= i < j < |s'.emissions| ensures Apart(s'.emissions[i].origin, s'.emissions[j].origin) {
      assert s'.emissions[i] == s.emissions[i];
      if j < |s.emissions| { assert s'.emissions[j] == s.emissions[j]; }
    }
  }

  lemma NothingEmitted(s: System, s': System)
    requires CausesSpent(s) && PairwiseApart(s.emissions) && s'.emissions == s.emissions
    requires forall c :: Spent(s, c) ==> Spent(s', c)
    ensures CausesSpent(s') && PairwiseApart(s'.emissions)
  {
  }

  // ------------------------------------------------------------- the steps

  lemma ScreenedKeeps(s: System, step: Step, screened: Option<Output>)
    requires FallbackInv(s) && step.BeginEvaluate? && step.id !in s.calls && (screened.None? ==> step.lease.Some?)
    requires screened.Some? ==> screened.value.declared == [] && DeclaresLast(screened.value.events, [])
    ensures FallbackInv(AfterScreen(s, step.id, step.g, step.c, step.lease, step.state, step.now, screened))
  {
    var s' := AfterScreen(s, step.id, step.g, step.c, step.lease, step.state, step.now, screened);
    var cause := FromCommand(KeyOf(step.c));
    if screened.Some? {
      LogDeclares(s.history, s.emissions, step.g, cause, screened.value.events, []);
      assert s.emissions + EmissionsOf(cause, []) == s.emissions;
    }
    NothingEmitted(s, s');
  }

  lemma BeginEvaluateKeeps(s: System, step: Step)
    requires FallbackInv(s) && step.BeginEvaluate?
    ensures FallbackInv(Apply(s, step))
  {
    if step.id !in s.calls && step.g in s.gates {
      var gate := s.gates[step.g];
      ScreenDeclares(gate.cfg, s.rows, gate.memory, step.c, step.lease, Auth(gate.cfg, step.c, step.now));
      ScreenedIsAuthenticated(gate.cfg, s.rows, gate.memory, step.c, step.lease, step.now);
      ScreenedKeeps(s, step, Screen(gate.cfg, s.rows, gate.memory, step.c, step.lease, step.now));
    }
  }

  lemma CommitKeeps(s: System, id: nat)
    requires FallbackInv(s) && CallsSound(s)
    ensures FallbackInv(Apply(s, Commit(id)))
  {
    if id in s.calls && s.calls[id].Validated? && s.calls[id].gate in s.gates {
      var k := s.calls[id];
      var gate := s.gates[k.gate];
      var s' := Apply(s, Commit(id));
      var out := Finish(gate.cfg, s.rows, gate.memory, k.c, k.lease, k.verdict).1;
      FinishDeclares(gate.cfg, s.rows, gate.memory, k.c, k.lease, k.verdict);
      LogDeclares(s.history, s.emissions, k.gate, FromCommand(KeyOf(k.c)), out.events, out.declared);
      EmitOne(s, s', FromCommand(KeyOf(k.c)), out.declared);
    }
  }

  lemma RevokedKeeps(s: System, step: Step, tables: Tables, out: RevokeOutput)
    requires FallbackInv(s) && step.BeginRevoke? && step.id !in s.calls
    requires out.result.RevokedNow? ==> step.lease.Some? && step.r.messageId !in s.tables.messages
    requires out.result.RevokedNow? ==> tables.messages == s.tables.messages[step.r.messageId := step.r.leaseId]
    requires !out.result.RevokedNow? ==> DeclaresLast(out.events, [])
    ensures FallbackInv(AfterRevoke(s, step.id, step.g, step.r, step.lease, tables, out))
  {
    var cause := FromRevocation(step.r.messageId);
    if !out.result.RevokedNow? {
      LogDeclares(s.history, s.emissions, step.g, cause, out.events, []);
      assert s.emissions + EmissionsOf(cause, []) == s.emissions;
    }
    NothingEmitted(s, AfterRevoke(s, step.id, step.g, step.r, step.lease, tables, out));
  }

  lemma BeginRevokeKeeps(s: System, step: Step)
    requires FallbackInv(s) && step.BeginRevoke?
    ensures FallbackInv(Apply(s, step))
  {
    if step.id !in s.calls && step.g in s.gates {
      var gate := s.gates[step.g];
      RevokeTables(gate.cfg, s.tables, gate.memory, step.r, step.lease, step.now);
      RevokeDeclares(gate.cfg, s.tables, gate.memory, step.r, step.lease, step.now);
      var (tables, _, out) := Revoke(gate.cfg, s.tables, gate.memory, step.r, step.lease, step.now);
      RevokedKeeps(s, step, tables, out);
    }
  }

  lemma PublishKeeps(s: System, id: nat)
    requires FallbackInv(s)
    ensures FallbackInv(Apply(s, Publish(id)))
  {
    if id in s.calls && s.calls[id].Publishing? && s.calls[id].gate in s.gates {
      var k := s.calls[id];
      var s' := Apply(s, Publish(id));
      var out := Published(s.gates[k.gate].cfg, k.r, k.lease);
      LogDeclares(s.history, s.emissions, k.gate, FromRevocation(k.r.messageId), out.events, out.declared);
      EmitOne(s, s', FromRevocation(k.r.messageId), out.declared);
    }
  }

  lemma CommitAndCrashKeeps(s: System, id: nat)
    requires FallbackInv(s) && CallsSound(s)
    ensures FallbackInv(Apply(s, CommitAndCrash(id)))
  {
    if id in s.calls && s.calls[id].Validated? && s.calls[id].gate in s.gates {
      var k := s.calls[id];
      var gate := s.gates[k.gate];
      FinishDeclares(gate.cfg, s.rows, gate.memory, k.c, k.lease, k.verdict);
      NothingEmitted(s, Apply(s, CommitAndCrash(id)));
    }
  }

  lemma ApplyKeepsFallback(s: System, step: Step)
    requires FallbackInv(s) && CallsSound(s)
    ensures FallbackInv(Apply(s, step))
  {
    match step
    case BeginEvaluate(_, _, _, _, _, _) => BeginEvaluateKeeps(s, step);
    case Commit(id) => CommitKeeps(s, id);
    case BeginRevoke(_, _, _, _, _) => BeginRevokeKeeps(s, step);
    case Publish(id) => PublishKeeps(s, id);
    case CommitAndCrash(id) => CommitAndCrashKeeps(s, id);
    case _ => NothingEmitted(s, Apply(s, step));
  }

  lemma {:induction false} RunKeepsFallback(rows0: set<Row>, s: System, steps: seq<Step>)
    requires FallbackInv(s) && UseInv(rows0, s)
    ensures FallbackInv(Run(s, steps))
    decreases |steps|
  {
    if steps != [] {
      ApplyKeepsFallback(s, steps[0]);
      ApplyKeepsUse(rows0, s, steps[0]);
      RunKeepsFallback(rows0, Apply(s, steps[0]), steps[1..]);
    }
  }

  /**
    At most one fallback per cause. In every run, over all gates and restarts, no two
    declarations come from the same revocation id, and none from two denials that share an
    agent's command id or command nonce; the log records exactly the declarations made.
   */
  lemma FallbackAtMostOnce(rows0: set<Row>, tables0: Tables, steps: seq<Step>, i: nat, j: nat)
    requires i < j < |Run(Start(rows0, tables0), steps).emissions|
    ensures var s := Run(Start(rows0, tables0), steps);
      && Fallbacks(s.history) == Declared(s.emissions)
      && match (s.emissions[i].origin, s.emissions[j].origin)
         case (FromRevocation(m), FromRevocation(n)) => m != n
         case (FromCommand(k), FromCommand(l)) =>
           k.agentId == l.agentId ==> k.commandId != l.commandId && k.commandNonce != l.commandNonce
         case _ => true
  {
    RunKeepsFallback(rows0, Start(rows0, tables0), steps);
    var s := Run(Start(rows0, tables0), steps);
    match (s.emissions[i].origin, s.emissions[j].origin)
    case (FromCommand(k), FromCommand(l)) =>
      assert IdRow(k) in CommandRows(k) && NonceRow(k) in CommandRows(k);
      assert IdRow(l) in CommandRows(l) && NonceRow(l) in CommandRows(l);
    case _ =>
  }

  /**
    When declarations name one revocation. In every run, each declaration made on revoking names
    that revocation, one made on a denial names a revocation exactly when it answers a revoked
    lease, and of two that name the same at least one answers such a denial.
   */
  lemma SameRevocationNamedTwice(rows0: set<Row>, tables0: Tables, steps: seq<Step>, i: nat, j: nat)
    requires i < j < |Run(Start(rows0, tables0), steps).emissions|
    ensures var s := Run(Start(rows0, tables0), steps);
      var a, b := s.emissions[i], s.emissions[j];
      && NamesCause(a) && NamesCause(b)
      && (a.declaration.revocationId.Some? && a.declaration.revocationId == b.declaration.revocationId ==>
          || (a.origin.FromCommand? && a.declaration.trigger.LeaseRevoked?)
          || (b.origin.FromCommand? && b.declaration.trigger.LeaseRevoked?))
  {
    RunKeepsFallback(rows0, Start(rows0, tables0), steps);
    FallbackAtMostOnce(rows0, tables0, steps, i, j);
  }
}
