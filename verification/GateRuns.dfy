/**
  Runs of a whole installation: any number of gates over one replay table and one pair of
  revocation tables, booted and crashed at any time. An evaluation is three separate steps
  (screen, validate, commit) and a revocation two (store, publish); steps of different calls
  interleave freely. A gate may also die between its store transaction and the record of it.
 */
module GateRuns {
  import opened Core
  import opened Conformance
  import opened Gate

  datatype Call =
    | Screened(gate: nat, c: Command, lease: Lease, state: Option<RobotState>, now: int)
    | Validated(gate: nat, c: Command, lease: Lease, verdict: Verdict)
    | Publishing(gate: nat, r: Revocation, lease: Lease)

  /** `loaded` and `own` record where the memory came from: the store at boot, or this gate's own revocations. */
  datatype Instance = Instance(
    cfg: GateConfig, memory: map<string, RevokedLease>, ghost loaded: set<string>, ghost own: set<string>)

  datatype Logged = Logged(gate: nat, event: GateEvent)

  datatype Origin = FromRevocation(revocationId: string) | FromCommand(key: CommandKey)

  datatype Emission = Emission(origin: Origin, declaration: Declaration)

  /** `lost` collects the rows whose consumer crashed before it could record what it had decided. */
  datatype System = System(
    rows: set<Row>, tables: Tables, gates: map<nat, Instance>, calls: map<nat, Call>, history: seq<Logged>,
    emissions: seq<Emission>, lost: set<Row>)

  datatype Step =
    | Boot(g: nat, cfg: GateConfig)
    | BeginEvaluate(id: nat, g: nat, c: Command, lease: Option<Lease>, state: Option<RobotState>, now: int)
    | Validate(id: nat)
    | Commit(id: nat)
    | BeginRevoke(id: nat, g: nat, r: Revocation, lease: Option<Lease>, now: int)
    | Publish(id: nat)
    | Crash(g: nat)
    | CommitAndCrash(id: nat)

  function LogOf(g: nat, events: seq<GateEvent>): seq<Logged> {
    seq(|events|, i requires 0 <= i < |events| => Logged(g, events[i]))
  }

  function EmissionsOf(origin: Origin, declared: seq<Declaration>): seq<Emission> {
    seq(|declared|, i requires 0 <= i < |declared| => Emission(origin, declared[i]))
  }

  ghost function AfterBoot(s: System, g: nat, cfg: GateConfig): System {
    s.(gates := s.gates[g := Instance(cfg, s.tables.leases, s.tables.leases.Keys, {})])
  }

  function AfterScreen(
    s: System, id: nat, g: nat, c: Command, lease: Option<Lease>, state: Option<RobotState>, now: int,
    screened: Option<Output>): System
    requires screened.None? ==> lease.Some?
  {
    if screened.Some? then s.(history := s.history + LogOf(g, screened.value.events))
    else s.(calls := s.calls[id := Screened(g, c, lease.value, state, now)])
  }

  function AfterFinish(s: System, id: nat, g: nat, key: CommandKey, rows: set<Row>, out: Output): System {
    s.(rows := rows, calls := s.calls - {id}, history := s.history + LogOf(g, out.events),
       emissions := s.emissions + EmissionsOf(FromCommand(key), out.declared))
  }

  /** The gate dies, and with it all its calls. */
  function AfterCrash(s: System, g: nat): System {
    s.(gates := s.gates - {g}, calls := map id | id in s.calls && s.calls[id].gate != g :: s.calls[id])
  }

  /** The store transaction happened, but nothing was recorded, declared or answered. */
  function AfterLoss(s: System, g: nat, rows: set<Row>): System {
    AfterCrash(s.(rows := rows, lost := s.lost + (rows - s.rows)), g)
  }

  function AfterRevoke(
    s: System, id: nat, g: nat, r: Revocation, lease: Option<Lease>, tables: Tables, out: RevokeOutput): System
    requires out.result.RevokedNow? ==> lease.Some?
  {
    if out.result.RevokedNow? then s.(tables := tables, calls := s.calls[id := Publishing(g, r, lease.value)])
    else s.(history := s.history + LogOf(g, out.events))
  }

  function AfterPublish(s: System, id: nat, g: nat, record: RevokedLease, out: RevokeOutput): System
    requires g in s.gates
  {
    var gate := s.gates[g];
    var gate' := gate.(memory := gate.memory[record.leaseId := record], own := gate.own + {record.leaseId});
    s.(gates := s.gates[g := gate'], calls := s.calls - {id}, history := s.history + LogOf(g, out.events),
       emissions := s.emissions + EmissionsOf(FromRevocation(record.revocationId), out.declared))
  }

  /** A step that is not enabled leaves the system as it is. */
  ghost function Apply(s: System, step: Step): System {
    match step
    case Boot(g, cfg) =>
      if g in s.gates then s else AfterBoot(s, g, cfg)
    case BeginEvaluate(id, g, c, lease, state, now) =>
      if id in s.calls || g !in s.gates then s
      else
        AfterScreen(s, id, g, c, lease, state, now, Screen(s.gates[g].cfg, s.rows, s.gates[g].memory, c, lease, now))
    case Validate(id) =>
      if id !in s.calls || !s.calls[id].Screened? || s.calls[id].gate !in s.gates then s
      else
        var k := s.calls[id];
        var gate := s.gates[k.gate];
        var verdict := ValidateLease(gate.cfg, k.lease, k.c, k.state, gate.memory.Keys, k.now);
        s.(calls := s.calls[id := Validated(k.gate, k.c, k.lease, verdict)])
    case Commit(id) =>
      if id !in s.calls || !s.calls[id].Validated? || s.calls[id].gate !in s.gates then s
      else
        var k := s.calls[id];
        var gate := s.gates[k.gate];
        var (rows, out) := Finish(gate.cfg, s.rows, gate.memory, k.c, k.lease, k.verdict);
        AfterFinish(s, id, k.gate, KeyOf(k.c), rows, out)
    case BeginRevoke(id, g, r, lease, now) =>
      if id in s.calls || g !in s.gates then s
      else
        var (tables, _, out) := Revoke(s.gates[g].cfg, s.tables, s.gates[g].memory, r, lease, now);
        AfterRevoke(s, id, g, r, lease, tables, out)
    case Publish(id) =>
      if id !in s.calls || !s.calls[id].Publishing? || s.calls[id].gate !in s.gates then s
      else
        var k := s.calls[id];
        AfterPublish(s, id, k.gate, RevokedRecord(k.r, k.lease), Published(s.gates[k.gate].cfg, k.r, k.lease))
    case Crash(g) => AfterCrash(s, g)
    case CommitAndCrash(id) =>
      if id !in s.calls || !s.calls[id].Validated? || s.calls[id].gate !in s.gates then s
      else
        var k := s.calls[id];
        AfterLoss(s, k.gate, Finish(s.gates[k.gate].cfg, s.rows, s.gates[k.gate].memory, k.c, k.lease, k.verdict).0)
  }

  ghost function Run(s: System, steps: seq<Step>): System
    decreases |steps|
  {
    if steps == [] then s else Run(Apply(s, steps[0]), steps[1..])
  }

  lemma {:induction false} RunAppend(s: System, a: seq<Step>, b: seq<Step>)
    ensures Run(s, a + b) == Run(Run(s, a), b)
    decreases |a|
  {
    if a == [] {
      assert a + b == b;
    } else {
      assert (a + b)[1..] == a[1..] + b;
      RunAppend(Apply(s, a[0]), a[1..], b);
    }
  }

  /** No gate, no call, and whatever the stores held before. */
  function Start(rows: set<Row>, tables: Tables): System {
    System(rows, tables, map[], map[], [], [], {})
  }

  // ------------------------------------------------------------- uninterrupted calls

  lemma RunThree(s: System, a: Step, b: Step, c: Step)
    ensures Run(s, [a, b, c]) == Apply(Apply(Apply(s, a), b), c)
    ensures Run(s, [a, b]) == Apply(Apply(s, a), b)
  {
    assert [a, b, c][1..] == [b, c] && [b, c][1..] == [c] && [a, b][1..] == [b];
    assert [b][1..] == [] && [c][1..] == [];
    assert Run(Apply(s, a), [b]) == Apply(Apply(s, a), b);
    assert Run(Apply(Apply(s, a), b), [c]) == Apply(Apply(Apply(s, a), b), c);
  }

  lemma AtomicScreened(s: System, a: Step, screened: Option<Output>)
    requires a.BeginEvaluate? && a.id !in s.calls && a.g in s.gates && (screened.None? ==> a.lease.Some?)
    ensures var s' := AfterScreen(s, a.id, a.g, a.c, a.lease, a.state, a.now, screened);
      var gate := s.gates[a.g];
      Apply(Apply(s', Validate(a.id)), Commit(a.id)) ==
      if screened.Some? then s'
      else
        var verdict := ValidateLease(gate.cfg, a.lease.value, a.c, a.state, gate.memory.Keys, a.now);
        var (rows, out) := Finish(gate.cfg, s.rows, gate.memory, a.c, a.lease.value, verdict);
        s.(rows := rows, history := s.history + LogOf(a.g, out.events),
           emissions := s.emissions + EmissionsOf(FromCommand(KeyOf(a.c)), out.declared))
  {
    if screened.None? {
      var gate := s.gates[a.g];
      var verdict := ValidateLease(gate.cfg, a.lease.value, a.c, a.state, gate.memory.Keys, a.now);
      var s' := AfterScreen(s, a.id, a.g, a.c, a.lease, a.state, a.now, screened);
      var validated := s.calls[a.id := Validated(a.g, a.c, a.lease.value, verdict)];
      assert s'.calls[a.id := Validated(a.g, a.c, a.lease.value, verdict)] == validated;
      assert Apply(s', Validate(a.id)) == s.(calls := validated);
      assert validated - {a.id} == s.calls;
    }
  }

  /** The three steps of an evaluation, uninterrupted, amount to `Gate.Evaluate`. */
  lemma AtomicEvaluate(
    s: System, id: nat, g: nat, c: Command, lease: Option<Lease>, state: Option<RobotState>, now: int)
    requires id !in s.calls && g in s.gates
    ensures var (rows, out) := Evaluate(s.gates[g].cfg, s.rows, s.gates[g].memory, c, lease, state, now);
      Run(s, [BeginEvaluate(id, g, c, lease, state, now), Validate(id), Commit(id)]) ==
      s.(rows := rows, history := s.history + LogOf(g, out.events),
         emissions := s.emissions + EmissionsOf(FromCommand(KeyOf(c)), out.declared))
  {
    var begin := BeginEvaluate(id, g, c, lease, state, now);
    RunThree(s, begin, Validate(id), Commit(id));
    var gate := s.gates[g];
    ScreenLaw(gate.cfg, s.rows, gate.memory, c, lease, Auth(gate.cfg, c, now));
    AtomicScreened(s, begin, Screen(gate.cfg, s.rows, gate.memory, c, lease, now));
    assert s.emissions + EmissionsOf(FromCommand(KeyOf(c)), []) == s.emissions;
  }

  lemma AtomicRevoked(s: System, a: Step, tables: Tables, out: RevokeOutput)
    requires a.BeginRevoke? && a.id !in s.calls && a.g in s.gates
    requires out.result.RevokedNow? ==> a.lease.Some? && out == Published(s.gates[a.g].cfg, a.r, a.lease.value)
    requires !out.result.RevokedNow? ==> tables == s.tables && out.declared == []
    ensures var s' := Apply(AfterRevoke(s, a.id, a.g, a.r, a.lease, tables, out), Publish(a.id));
      && s'.rows == s.rows && s'.tables == tables && s'.calls == s.calls
      && s'.gates.Keys == s.gates.Keys && s'.gates[a.g].cfg == s.gates[a.g].cfg
      && s'.gates[a.g].memory == (if out.result.RevokedNow?
                                  then s.gates[a.g].memory[a.r.leaseId := RevokedRecord(a.r, a.lease.value)]
                                  else s.gates[a.g].memory)
      && (forall h :: h in s.gates && h != a.g ==> s'.gates[h] == s.gates[h])
      && s'.history == s.history + LogOf(a.g, out.events)
      && s'.emissions == s.emissions + EmissionsOf(FromRevocation(a.r.messageId), out.declared)
  {
    if out.result.RevokedNow? {
      assert s.calls[a.id := Publishing(a.g, a.r, a.lease.value)] - {a.id} == s.calls;
    } else {
      assert s.emissions + EmissionsOf(FromRevocation(a.r.messageId), []) == s.emissions;
    }
  }

  /** What `revoke` does to the tables and the memory. */
  lemma RevokeTables(
    cfg: GateConfig, tables: Tables, memory: map<string, RevokedLease>, r: Revocation, lease: Option<Lease>, now: int)
    ensures var (tables', memory', out) := Revoke(cfg, tables, memory, r, lease, now);
      && (out.result.RevokedNow? ==>
          && lease.Some? && r.leaseId == lease.value.leaseId && r.messageId !in tables.messages
          && tables'.leases == tables.leases[r.leaseId := RevokedRecord(r, lease.value)]
          && tables'.messages == tables.messages[r.messageId := r.leaseId]
          && memory' == memory[r.leaseId := RevokedRecord(r, lease.value)]
          && out == Published(cfg, r, lease.value))
      && (!out.result.RevokedNow? ==> tables' == tables && memory' == memory && out.declared == [])
  {
  }

  /** The two steps of a revocation, uninterrupted, amount to `Gate.Revoke`. */
  lemma AtomicRevoke(s: System, id: nat, g: nat, r: Revocation, lease: Option<Lease>, now: int)
    requires id !in s.calls && g in s.gates
    ensures var (tables, memory, out) := Revoke(s.gates[g].cfg, s.tables, s.gates[g].memory, r, lease, now);
      var s' := Run(s, [BeginRevoke(id, g, r, lease, now), Publish(id)]);
      && s'.rows == s.rows && s'.tables == tables && s'.calls == s.calls
      && s'.gates.Keys == s.gates.Keys && s'.gates[g].memory == memory && s'.gates[g].cfg == s.gates[g].cfg
      && (forall h :: h in s.gates && h != g ==> s'.gates[h] == s.gates[h])
      && s'.history == s.history + LogOf(g, out.events)
      && s'.emissions == s.emissions + EmissionsOf(FromRevocation(r.messageId), out.declared)
  {
    var begin := BeginRevoke(id, g, r, lease, now);
    RunThree(s, begin, Publish(id), Publish(id));
    RevokeTables(s.gates[g].cfg, s.tables, s.gates[g].memory, r, lease, now);
    var (tables, _, out) := Revoke(s.gates[g].cfg, s.tables, s.gates[g].memory, r, lease, now);
    AtomicRevoked(s, begin, tables, out);
  }

  // ------------------------------------------------------------- single use and conservation

  /** The rows that an audit event says were consumed. */
  function RowsOf(e: GateEvent): set<Row> {
    if e.command.None? then {}
    else if e.eventType.CommandAllowed? && e.leaseNonce.Some? then AuthorizedRows(e.command.value, e.leaseNonce.value)
    else if ConsumingDenial(e) then CommandRows(e.command.value)
    else {}
  }

  function KindCount(rows: set<Row>, kind: Kind): nat {
    |set r | r in rows && r.kind == kind|
  }

  function Uses(e: GateEvent, kind: Kind): nat {
    if e.eventType.CommandAllowed? then 1
    else if ConsumingDenial(e) && !kind.LeaseNonceKind? then 1
    else 0
  }

  function TotalUses(history: seq<Logged>, kind: Kind): nat {
    if history == [] then 0 else TotalUses(history[..|history| - 1], kind) + Uses(history[|history| - 1].event, kind)
  }

  predicate Complete(e: GateEvent) {
    && (e.eventType.CommandAllowed? ==> e.command.Some? && e.leaseNonce.Some?)
    && (ConsumingDenial(e) ==> e.command.Some?)
  }

  lemma EmptyCounts(kind: Kind)
    ensures KindCount({}, kind) == 0
  {
    var none: set<Row> := {};
    assert (set r | r in none && r.kind == kind) == {};
  }

  /**
    Every row consumed since the start is in the table, was not there at the start, and was
    consumed either by one logged event only or by a lost decision.
   */
  ghost predicate Accounted(rows0: set<Row>, rows: set<Row>, lost: set<Row>, history: seq<Logged>) {
    && rows0 <= rows && lost <= rows && lost !! rows0
    && (forall i :: 0 <= i < |history| ==>
        && Complete(history[i].event) && RowsOf(history[i].event) <= rows
        && RowsOf(history[i].event) !! rows0 && RowsOf(history[i].event) !! lost)
    && (forall i, j :: 0 <= i < j < |history| ==> RowsOf(history[i].event) !! RowsOf(history[j].event))
    && (forall kind ::
        KindCount(rows, kind) == KindCount(rows0, kind) + KindCount(lost, kind) + TotalUses(history, kind))
  }

  ghost predicate CallsSound(s: System) {
    forall id :: id in s.calls ==>
      match s.calls[id]
      case Screened(_, c, _, _, _) => c.authenticatedAgentId.Some?
      case Validated(_, c, _, verdict) => c.authenticatedAgentId.Some? && LeaseVerdict(verdict)
      case Publishing(_, r, l) => r.leaseId == l.leaseId
  }

  lemma KindCountUnion(rows: set<Row>, extra: set<Row>, kind: Kind)
    requires rows !! extra
    ensures KindCount(rows + extra, kind) == KindCount(rows, kind) + KindCount(extra, kind)
  {
    var a := set r | r in rows && r.kind == kind;
    var b := set r | r in extra && r.kind == kind;
    assert (set r | r in rows + extra && r.kind == kind) == a + b;
    assert a !! b;
  }

  lemma KindsOfEvent(e: GateEvent, kind: Kind)
    requires Complete(e)
    ensures KindCount(RowsOf(e), kind) == Uses(e, kind)
  {
    var rows := set r | r in RowsOf(e) && r.kind == kind;
    if Uses(e, kind) == 0 {
      assert rows == {};
    } else {
      var k := e.command.value;
      match kind
      case CommandIdKind => assert rows == {IdRow(k)};
      case CommandNonceKind => assert rows == {NonceRow(k)};
      case LeaseNonceKind => assert rows == {LeaseRow(e.leaseNonce.value)};
    }
  }

  lemma AccountOne(rows0: set<Row>, rows: set<Row>, lost: set<Row>, history: seq<Logged>, entry: Logged)
    requires Accounted(rows0, rows, lost, history) && Complete(entry.event) && rows !! RowsOf(entry.event)
    ensures Accounted(rows0, rows + RowsOf(entry.event), lost, history + [entry])
  {
    var longer := history + [entry];
    assert longer[..|longer| - 1] == history;
    forall kind
      ensures KindCount(rows + RowsOf(entry.event), kind) ==
              KindCount(rows0, kind) + KindCount(lost, kind) + TotalUses(longer, kind)
    {
      KindCountUnion(rows, RowsOf(entry.event), kind);
      KindsOfEvent(entry.event, kind);
    }
    forall i | 0 <= i < |longer|
      ensures Complete(longer[i].event) && RowsOf(longer[i].event) <= rows + RowsOf(entry.event)
      ensures RowsOf(longer[i].event) !! rows0 && RowsOf(longer[i].event) !! lost
    {
      if i < |history| { assert longer[i] == history[i]; }
    }
    forall i, j | 0 <= i < j < |longer| ensures RowsOf(longer[i].event) !! RowsOf(longer[j].event) {
      assert longer[i] == history[i];
      if j < |history| { assert longer[j] == history[j]; }
    }
  }

  /** Recording the events of a step of which at most the first consumes anything. */
  lemma AccountEvents(
    rows0: set<Row>, rows: set<Row>, lost: set<Row>, history: seq<Logged>, g: nat, events: seq<GateEvent>)
    requires Accounted(rows0, rows, lost, history) && Wellshaped(events) && rows !! RowsOf(events[0])
    ensures Accounted(rows0, rows + RowsOf(events[0]), lost, history + LogOf(g, events))
  {
    AccountOne(rows0, rows, lost, history, Logged(g, events[0]));
    var log := LogOf(g, events);
    if |events| == 1 {
      assert log == [Logged(g, events[0])];
    } else {
      var rows' := rows + RowsOf(events[0]);
      AccountOne(rows0, rows', lost, history + [Logged(g, events[0])], Logged(g, events[1]));
      assert rows' + RowsOf(events[1]) == rows';
      assert history + log == history + [Logged(g, events[0])] + [Logged(g, events[1])];
    }
  }

  /** Losing a decision accounts for its rows as lost. */
  lemma AccountLoss(rows0: set<Row>, rows: set<Row>, lost: set<Row>, history: seq<Logged>, extra: set<Row>)
    requires Accounted(rows0, rows, lost, history) && rows !! extra
    ensures Accounted(rows0, rows + extra, lost + extra, history)
  {
    forall kind
      ensures KindCount(rows + extra, kind) ==
              KindCount(rows0, kind) + KindCount(lost + extra, kind) + TotalUses(history, kind)
    {
      KindCountUnion(rows, extra, kind);
      KindCountUnion(lost, extra, kind);
    }
  }

  /** The shape of the events of one answer of `evaluate`. */
  predicate Wellshaped(events: seq<GateEvent>) {
    && 1 <= |events| <= 2
    && (forall i :: 0 <= i < |events| ==> Complete(events[i]))
    && (|events| == 2 ==> RowsOf(events[1]) == {})
  }

  lemma ScreenShape(
    cfg: GateConfig, rows: set<Row>, memory: map<string, RevokedLease>, c: Command, lease: Option<Lease>, auth: Verdict)
    ensures var screened := ScreenAfter(cfg, rows, memory, c, lease, auth);
      screened.Some? ==> Wellshaped(screened.value.events) && RowsOf(screened.value.events[0]) == {}
  {
  }

  lemma RejectShape(
    cfg: GateConfig, memory: map<string, RevokedLease>, c: Command, lease: Lease, reason: Reason, emit: bool)
    ensures var out := Reject(cfg, memory, c, Some(lease), reason, emit);
      Wellshaped(out.events) && out.events[0].command == Some(KeyOf(c)) && out.events[0].eventType.CommandRejected?
  {
  }

  lemma FinishShape(
    cfg: GateConfig, rows: set<Row>, memory: map<string, RevokedLease>, c: Command, lease: Lease, verdict: Verdict)
    requires LeaseVerdict(verdict) && c.authenticatedAgentId.Some?
    ensures var (rows', out) := Finish(cfg, rows, memory, c, lease, verdict);
      && Wellshaped(out.events) && rows !! RowsOf(out.events[0]) && rows' == rows + RowsOf(out.events[0])
  {
    FinishLaw(cfg, rows, memory, c, lease, verdict);
    if verdict.Valid? {
      var use := RememberAuthorized(rows, c, lease).1;
      if use.Invalid? { RejectShape(cfg, memory, c, lease, use.reason, false); }
    } else {
      RejectShape(cfg, memory, c, lease, verdict.reason, true);
      RejectShape(cfg, memory, c, lease, CommandReplayed, false);
    }
  }

  lemma RevokeShape(
    cfg: GateConfig, tables: Tables, memory: map<string, RevokedLease>, r: Revocation, lease: Option<Lease>, now: int)
    ensures var out := Revoke(cfg, tables, memory, r, lease, now).2;
      && Wellshaped(out.events) && RowsOf(out.events[0]) == {}
      && (out.result.RevokedNow? ==> lease.Some? && r.leaseId == lease.value.leaseId)
  {
  }

  ghost predicate UseInv(rows0: set<Row>, s: System) {
    Accounted(rows0, s.rows, s.lost, s.history) && CallsSound(s)
  }

  lemma ScreenedKeepsUse(rows0: set<Row>, s: System, step: Step, screened: Option<Output>)
    requires UseInv(rows0, s) && step.BeginEvaluate?
    requires screened.None? ==> step.lease.Some? && step.c.authenticatedAgentId.Some?
    requires screened.Some? ==> Wellshaped(screened.value.events) && RowsOf(screened.value.events[0]) == {}
    ensures UseInv(rows0, AfterScreen(s, step.id, step.g, step.c, step.lease, step.state, step.now, screened))
  {
    if screened.Some? {
      AccountEvents(rows0, s.rows, s.lost, s.history, step.g, screened.value.events);
      assert s.rows + {} == s.rows;
    }
  }

  lemma FinishedKeepsUse(rows0: set<Row>, s: System, id: nat, g: nat, key: CommandKey, rows: set<Row>, out: Output)
    requires UseInv(rows0, s) && Wellshaped(out.events)
    requires s.rows !! RowsOf(out.events[0]) && rows == s.rows + RowsOf(out.events[0])
    ensures UseInv(rows0, AfterFinish(s, id, g, key, rows, out))
  {
    AccountEvents(rows0, s.rows, s.lost, s.history, g, out.events);
  }

  lemma RevokedKeepsUse(rows0: set<Row>, s: System, step: Step, tables: Tables, out: RevokeOutput)
    requires UseInv(rows0, s) && step.BeginRevoke? && Wellshaped(out.events) && RowsOf(out.events[0]) == {}
    requires out.result.RevokedNow? ==> step.lease.Some? && step.r.leaseId == step.lease.value.leaseId
    ensures UseInv(rows0, AfterRevoke(s, step.id, step.g, step.r, step.lease, tables, out))
  {
    if !out.result.RevokedNow? {
      AccountEvents(rows0, s.rows, s.lost, s.history, step.g, out.events);
      assert s.rows + {} == s.rows;
    }
  }

  lemma PublishedKeepsUse(rows0: set<Row>, s: System, id: nat, g: nat, record: RevokedLease, out: RevokeOutput)
    requires UseInv(rows0, s) && g in s.gates && Wellshaped(out.events) && RowsOf(out.events[0]) == {}
    ensures UseInv(rows0, AfterPublish(s, id, g, record, out))
  {
    AccountEvents(rows0, s.rows, s.lost, s.history, g, out.events);
    assert s.rows + {} == s.rows;
  }

  lemma ValidateKeepsUse(rows0: set<Row>, s: System, id: nat)
    requires UseInv(rows0, s)
    ensures UseInv(rows0, Apply(s, Validate(id)))
  {
    if id in s.calls && s.calls[id].Screened? && s.calls[id].gate in s.gates {
      var k := s.calls[id];
      ValidationReasons(s.gates[k.gate].cfg, k.lease, k.c, k.state, s.gates[k.gate].memory.Keys, k.now);
    }
  }

  lemma ScreenedIsAuthenticated(
    cfg: GateConfig, rows: set<Row>, memory: map<string, RevokedLease>, c: Command, lease: Option<Lease>, now: int)
    ensures Screen(cfg, rows, memory, c, lease, now).None? ==> lease.Some? && c.authenticatedAgentId.Some?
  {
  }

  lemma ApplyKeepsUse(rows0: set<Row>, s: System, step: Step)
    requires UseInv(rows0, s)
    ensures UseInv(rows0, Apply(s, step))
  {
    match step
    case Boot(g, cfg) =>
    case BeginEvaluate(id, g, c, lease, state, now) =>
      if id !in s.calls && g in s.gates {
        var gate := s.gates[g];
        ScreenShape(gate.cfg, s.rows, gate.memory, c, lease, Auth(gate.cfg, c, now));
        ScreenedIsAuthenticated(gate.cfg, s.rows, gate.memory, c, lease, now);
        ScreenedKeepsUse(rows0, s, step, Screen(gate.cfg, s.rows, gate.memory, c, lease, now));
      }
    case Validate(id) => ValidateKeepsUse(rows0, s, id);
    case Commit(id) =>
      if id in s.calls && s.calls[id].Validated? && s.calls[id].gate in s.gates {
        var k := s.calls[id];
        var gate := s.gates[k.gate];
        FinishShape(gate.cfg, s.rows, gate.memory, k.c, k.lease, k.verdict);
        var (rows, out) := Finish(gate.cfg, s.rows, gate.memory, k.c, k.lease, k.verdict);
        FinishedKeepsUse(rows0, s, id, k.gate, KeyOf(k.c), rows, out);
      }
    case BeginRevoke(id, g, r, lease, now) =>
      if id !in s.calls && g in s.gates {
        RevokeShape(s.gates[g].cfg, s.tables, s.gates[g].memory, r, lease, now);
        var (tables, _, out) := Revoke(s.gates[g].cfg, s.tables, s.gates[g].memory, r, lease, now);
        RevokedKeepsUse(rows0, s, step, tables, out);
      }
    case Publish(id) =>
      if id in s.calls && s.calls[id].Publishing? && s.calls[id].gate in s.gates {
        var k := s.calls[id];
        PublishedKeepsUse(rows0, s, id, k.gate, RevokedRecord(k.r, k.lease),
                          Published(s.gates[k.gate].cfg, k.r, k.lease));
      }
    case Crash(g) =>
    case CommitAndCrash(id) =>
      if id in s.calls && s.calls[id].Validated? && s.calls[id].gate in s.gates {
        var k := s.calls[id];
        var gate := s.gates[k.gate];
        FinishShape(gate.cfg, s.rows, gate.memory, k.c, k.lease, k.verdict);
        var (rows, out) := Finish(gate.cfg, s.rows, gate.memory, k.c, k.lease, k.verdict);
        AccountLoss(rows0, s.rows, s.lost, s.history, RowsOf(out.events[0]));
        assert rows - s.rows == RowsOf(out.events[0]);
      }
  }

  lemma {:induction false} RunKeepsUse(rows0: set<Row>, s: System, steps: seq<Step>)
    requires UseInv(rows0, s)
    ensures UseInv(rows0, Run(s, steps))
    decreases |steps|
  {
    if steps != [] {
      ApplyKeepsUse(rows0, s, steps[0]);
      RunKeepsUse(rows0, Apply(s, steps[0]), steps[1..]);
    }
  }

  /**
    Single use. In every run no two allowed commands share a lease nonce, an agent's command
    id or an agent's command nonce, whichever gates allowed them.
   */
  lemma SingleUse(rows0: set<Row>, tables: Tables, steps: seq<Step>, i: nat, j: nat)
    requires i < j < |Run(Start(rows0, tables), steps).history|
    requires Run(Start(rows0, tables), steps).history[i].event.eventType.CommandAllowed?
    requires Run(Start(rows0, tables), steps).history[j].event.eventType.CommandAllowed?
    ensures var history := Run(Start(rows0, tables), steps).history;
      var a, b := history[i].event, history[j].event;
      && a.command.Some? && b.command.Some? && a.leaseNonce.Some? && b.leaseNonce.Some?
      && a.leaseNonce != b.leaseNonce
      && (a.command.value.agentId == b.command.value.agentId ==>
          && a.command.value.commandId != b.command.value.commandId
          && a.command.value.commandNonce != b.command.value.commandNonce)
  {
    RunKeepsUse(rows0, Start(rows0, tables), steps);
    var s := Run(Start(rows0, tables), steps);
    var a, b := s.history[i].event, s.history[j].event;
    assert Complete(a) && Complete(b) && RowsOf(a) !! RowsOf(b);
    assert LeaseRow(a.leaseNonce.value) in RowsOf(a) && LeaseRow(b.leaseNonce.value) in RowsOf(b);
    assert IdRow(a.command.value) in RowsOf(a) && IdRow(b.command.value) in RowsOf(b);
    assert NonceRow(a.command.value) in RowsOf(a) && NonceRow(b.command.value) in RowsOf(b);
  }

  function CountAllowed(history: seq<Logged>): nat {
    if history == [] then 0
    else CountAllowed(history[..|history| - 1]) + if history[|history| - 1].event.eventType.CommandAllowed? then 1 else 0
  }

  function CountLeaseDenials(history: seq<Logged>): nat {
    if history == [] then 0
    else CountLeaseDenials(history[..|history| - 1]) + if ConsumingDenial(history[|history| - 1].event) then 1 else 0
  }

  lemma {:induction false} UsesAreCounts(history: seq<Logged>)
    ensures TotalUses(history, LeaseNonceKind) == CountAllowed(history)
    ensures TotalUses(history, CommandIdKind) == CountAllowed(history) + CountLeaseDenials(history)
    ensures TotalUses(history, CommandNonceKind) == CountAllowed(history) + CountLeaseDenials(history)
  {
    if history != [] {
      UsesAreCounts(history[..|history| - 1]);
    }
  }

  /**
    Conservation between table and audit log. From an empty table, lease-nonce rows count the
    allowed commands, and command-id and command-nonce rows count the allowed commands plus
    the denials of lease validation, up to the rows lost in crashes.
   */
  lemma RowsMatchAudit(tables: Tables, steps: seq<Step>)
    ensures var s := Run(Start({}, tables), steps);
      && KindCount(s.rows, LeaseNonceKind) == CountAllowed(s.history) + KindCount(s.lost, LeaseNonceKind)
      && KindCount(s.rows, CommandIdKind) ==
         CountAllowed(s.history) + CountLeaseDenials(s.history) + KindCount(s.lost, CommandIdKind)
      && KindCount(s.rows, CommandNonceKind) ==
         CountAllowed(s.history) + CountLeaseDenials(s.history) + KindCount(s.lost, CommandNonceKind)
  {
    RunKeepsUse({}, Start({}, tables), steps);
    var s := Run(Start({}, tables), steps);
    UsesAreCounts(s.history);
    EmptyCounts(LeaseNonceKind);
    EmptyCounts(CommandIdKind);
    EmptyCounts(CommandNonceKind);
  }

  /** Rows are lost only in crashes between a store transaction and its record. */
  lemma {:induction false} NothingLostOtherwise(s: System, steps: seq<Step>)
    requires forall step :: step in steps ==> !step.CommitAndCrash?
    ensures Run(s, steps).lost == s.lost
    decreases |steps|
  {
    if steps != [] {
      NothingLostOtherwise(Apply(s, steps[0]), steps[1..]);
    }
  }
}
