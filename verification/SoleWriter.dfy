/**
  One gate that is the only writer of its stores, run call by call and restarted at will:
  its memory of revocations equals the stored table, record for record, after every call.
 */
module SoleWriter {
  import opened Core
  import opened Gate
  import opened GateRuns

  datatype Op =
    | EvaluateOp(c: Command, lease: Option<Lease>, state: Option<RobotState>, at: int)
    | RevokeOp(r: Revocation, lease: Option<Lease>, at: int)
    | RestartOp(cfg: GateConfig)

  /** A call of gate `g` without interruption, as steps of the installation. */
  function StepsOf(op: Op, g: nat): seq<Step> {
    match op
    case EvaluateOp(c, lease, state, at) => [BeginEvaluate(0, g, c, lease, state, at), Validate(0), Commit(0)]
    case RevokeOp(r, lease, at) => [BeginRevoke(0, g, r, lease, at), Publish(0)]
    case RestartOp(cfg) => [Crash(g), Boot(g, cfg)]
  }

  ghost function RunOps(s: System, ops: seq<Op>, g: nat): System
    decreases |ops|
  {
    if ops == [] then s else RunOps(Run(s, StepsOf(ops[0], g)), ops[1..], g)
  }

  /** Only gate `g` runs, between calls, and remembers exactly what is stored. */
  ghost predicate InSync(s: System, g: nat) {
    s.calls == map[] && s.gates.Keys == {g} && s.gates[g].memory == s.tables.leases
  }

  lemma OpKeepsSync(s: System, op: Op, g: nat)
    requires InSync(s, g)
    ensures InSync(Run(s, StepsOf(op, g)), g)
  {
    match op
    case EvaluateOp(c, lease, state, at) => AtomicEvaluate(s, 0, g, c, lease, state, at);
    case RevokeOp(r, lease, at) =>
      AtomicRevoke(s, 0, g, r, lease, at);
      RevokeTables(s.gates[g].cfg, s.tables, s.gates[g].memory, r, lease, at);
    case RestartOp(cfg) =>
      RunThree(s, Crash(g), Boot(g, cfg), Boot(g, cfg));
      assert Apply(s, Crash(g)).gates == map[];
  }

  lemma {:induction false} OpsKeepSync(s: System, ops: seq<Op>, g: nat)
    requires InSync(s, g)
    ensures InSync(RunOps(s, ops, g), g)
    decreases |ops|
  {
    if ops != [] {
      OpKeepsSync(s, ops[0], g);
      OpsKeepSync(Run(s, StepsOf(ops[0], g)), ops[1..], g);
    }
  }

  /** A sole writer's memory equals the stored table after every call, whatever was stored at the start. */
  lemma SoleWriterInSync(rows0: set<Row>, tables0: Tables, g: nat, cfg: GateConfig, ops: seq<Op>)
    ensures var s := RunOps(Apply(Start(rows0, tables0), Boot(g, cfg)), ops, g);
      s.gates.Keys == {g} && s.gates[g].memory == s.tables.leases
  {
    OpsKeepSync(Apply(Start(rows0, tables0), Boot(g, cfg)), ops, g);
  }
}
