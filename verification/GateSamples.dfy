/** A small configuration of the Python gate, and a command it allows: inputs for the witness lemmas. */
module GateSamples {
  import opened Core
  import opened Json
  import opened Leases
  import opened Conformance
  import opened Gate
  import PayloadBudget

  ghost function SampleGate(): GateConfig {
    GateConfig(
      "e", {"i"}, map["i" := "k"], {RemoteAssist}, "p", {"d"}, map["i" := {RemoteAssist}],
      map[RemoteAssist := Requirement(RemoteAssist, false, false, false, false)],
      map[RemoteAssist := Bounds(RemoteAssist, None, None, None, None, None, None)],
      map["a" := "k"], {"r"}, map["r" := "k"], map["r" := {"e"}], map["e" := "k"], map[], 600, 600, 30, 30, 300,
      Environment((l: Lease, k: string) => true, (c: Command, k: string) => true, (x: RobotState, k: string) => true,
                  (r: Revocation, k: string) => true, (n: string) => 0.0))
  }

  lemma SampleGateIsValid()
    ensures ValidConfig(SampleGate())
  {
    var cfg := SampleGate();
    assert !PythonSpace("e"[0]) && !PythonSpace("p"[0]) && !PythonSpace("d"[0]);
    assert "i" in cfg.trustedIssuerIds && "r" in cfg.trustedRevokerIds && RemoteAssist in cfg.acceptedCapabilities;
    assert "a" in cfg.agentKeys;
  }

  function NoLimits(): LeaseConstraints {
    LeaseConstraints(None, None, None, None, LocalAutonomyOnly, false, None)
  }

  function SampleLease(constraints: LeaseConstraints): Lease {
    Lease(true, "l", "i", "a", "e", "r", "n", RemoteAssist, constraints, 0, 60_000, "x", "p", "d")
  }

  function SampleCommand(): Command {
    Command(true, "m", "c", 0, "q", "a", Some("a"), "e", "r", "n", RemoteAssist, "u", Object(map[]))
  }

  /** Inside geofence `g`, on a good network. */
  function SampleState(): RobotState {
    RobotState("m", true, 0, 0, "r", "e", "n", NetworkState(Normal, true, 10.0, 0.0, 10.0, 0),
               GeofenceState("g", true, 0), true)
  }

  function SampleRevocation(): Revocation {
    Revocation(true, "v", "c", 0, 0, "l", "r", "e", Named("recall"), HoldPosition, None, None, None)
  }

  lemma SampleIsAuthentic()
    ensures Auth(SampleGate(), SampleCommand(), 0).Valid?
  {
    var c := SampleCommand();
    assert c.payload.fields.Keys == {};
    PayloadBudget.ObjectNode(PayloadBudget.PythonWeight, c.payload, PayloadBudget.MAX_DEPTH);
    PayloadBudget.ObjectNode(PayloadBudget.One, c.payload, PayloadBudget.MAX_DEPTH);
    assert PayloadBudget.WithinBudget(PayloadBudget.PythonWeight, c.payload);
    assert !PythonSpace("q"[0]) && !PythonSpace("u"[0]);
  }

  lemma SampleLeaseIsValid(revoked: set<string>)
    requires "l" !in revoked
    ensures ValidateLease(SampleGate(), SampleLease(NoLimits()), SampleCommand(), Some(SampleState()), revoked, 0).Valid?
  {
    var lease := SampleLease(NoLimits());
    assert !PythonSpace("p"[0]) && !PythonSpace("d"[0]);
    assert AboutLease(SampleGate(), lease, SampleCommand(), revoked, 0).Valid?;
    assert AboutState(SampleGate(), lease, Some(SampleState()), 0).Valid?;
  }

  lemma SampleRevocationIsValid()
    ensures RevocationVerdict(SampleGate(), SampleRevocation(), SampleLease(NoLimits()), 0).Valid?
  {
  }
}
