/** Runs that show what the theorems on whole runs allow for. */
module GateWitnesses {
  import opened Core
  import opened Conformance
  import opened Gate
  import opened GateRuns
  import opened GateSamples
  import opened RevocationRuns

  const NO_TABLES := Tables(map[], map[])

  function Sampled(): Lease { SampleLease(NoLimits()) }

  ghost function FreshGate(): Instance { Instance(SampleGate(), map[], {}, {}) }

  /** Two gates, just booted over empty stores. */
  ghost function TwoGates(): System {
    Apply(Apply(Start({}, NO_TABLES), Boot(0, SampleGate())), Boot(1, SampleGate()))
  }

  /** The sample evaluation as steps: call 0 at gate `g`. */
  function Begin(g: nat): Step { BeginEvaluate(0, g, SampleCommand(), Some(Sampled()), Some(SampleState()), 0) }

  function Passed(g: nat): Call { Validated(g, SampleCommand(), Sampled(), Valid) }

  lemma RunOne(s: System, a: Step)
    ensures Run(s, [a]) == Apply(s, a)
  {
    assert Run(Apply(s, a), [a][1..]) == Apply(s, a);
  }

  function Waiting(g: nat): Call { Screened(g, SampleCommand(), Sampled(), Some(SampleState()), 0) }

  lemma BeginWaits(s: System, g: nat)
    requires g in s.gates && s.gates[g] == FreshGate() && 0 !in s.calls && s.rows == {}
    ensures Apply(s, Begin(g)) == s.(calls := s.calls[0 := Waiting(g)])
  {
    SampleIsAuthentic();
    assert Screen(SampleGate(), {}, map[], SampleCommand(), Some(Sampled()), 0).None?;
  }

  lemma ValidatePasses(s: System, g: nat)
    requires g in s.gates && s.gates[g] == FreshGate() && 0 in s.calls && s.calls[0] == Waiting(g)
    ensures Apply(s, Validate(0)) == s.(calls := s.calls[0 := Passed(g)])
  {
    SampleLeaseIsValid({});
    assert FreshGate().memory.Keys == {};
  }

  lemma PassesFrom(s: System, waiting: System, g: nat)
    requires waiting == s.(calls := s.calls[0 := Waiting(g)]) && g in s.gates && s.gates[g] == FreshGate()
    ensures Apply(waiting, Validate(0)) == s.(calls := s.calls[0 := Passed(g)])
  {
    ValidatePasses(waiting, g);
    assert s.calls[0 := Waiting(g)][0 := Passed(g)] == s.calls[0 := Passed(g)];
  }

  lemma BeginPasses(s: System, g: nat)
    requires g in s.gates && s.gates[g] == FreshGate() && 0 !in s.calls && s.rows == {}
    ensures Run(s, [Begin(g), Validate(0)]) == s.(calls := s.calls[0 := Passed(g)])
  {
    var waiting := Apply(s, Begin(g));
    BeginWaits(s, g);
    PassesFrom(s, waiting, g);
    RunTwo(s, Begin(g), Validate(0));
  }

  lemma RunTwo(s: System, a: Step, b: Step)
    ensures Run(s, [a, b]) == Apply(Apply(s, a), b)
  {
    RunThree(s, a, b, b);
  }

  lemma CommitAllows(s: System, g: nat)
    requires g in s.gates && 0 in s.calls && s.calls[0] == Passed(g) && s.rows == {}
    ensures Apply(s, Commit(0)).history == s.history + LogOf(g, Allowed(SampleCommand(), Sampled()).events)
    ensures AllowsLease(Apply(s, Commit(0)).history[|s.history|], g, "l")
  {
  }

  // ------------------------------------------------------------- a crash that loses rows

  lemma CommitAndCrashLoses(s: System, g: nat)
    requires g in s.gates && s.gates[g] == FreshGate() && 0 in s.calls && s.calls[0] == Passed(g)
    requires s.rows == {} && s.lost == {}
    ensures var s' := Apply(s, CommitAndCrash(0));
      s'.history == s.history && s'.lost == s'.rows == AuthorizedRows(KeyOf(SampleCommand()), "x")
  {
  }

  function LosingRun(): seq<Step> { [Begin(0), Validate(0)] + [CommitAndCrash(0)] }

  /** A gate that dies between transaction and record leaves three rows that no event explains. */
  lemma CrashLosesRows()
    ensures var s := Run(TwoGates(), LosingRun());
      && s.history == [] && s.lost == s.rows == AuthorizedRows(KeyOf(SampleCommand()), "x")
  {
    var s := TwoGates();
    RunAppend(s, [Begin(0), Validate(0)], [CommitAndCrash(0)]);
    BeginPasses(s, 0);
    var passed := s.(calls := s.calls[0 := Passed(0)]);
    RunOne(passed, CommitAndCrash(0));
    CommitAndCrashLoses(passed, 0);
  }

  // ------------------------------------------------------------- a gate that does not see a revocation

  function Recall(): seq<Step> { [BeginRevoke(1, 0, SampleRevocation(), Some(Sampled()), 0), Publish(1)] }

  /** The sample revocation, uninterrupted, at gate 0. */
  lemma RecallStores(s: System)
    requires 0 in s.gates && s.gates[0] == FreshGate() && 1 !in s.calls && s.tables == NO_TABLES
    ensures var s' := Run(s, Recall());
      && "l" in s'.tables.leases && 0 in s'.gates
      && s'.gates[0].memory == map["l" := RevokedRecord(SampleRevocation(), Sampled())]
      && s'.gates[0].cfg == SampleGate() && |s'.emissions| == |s.emissions| + 1
      && s'.emissions[|s.emissions|].declaration.revocationId == Some("v")
      && s'.rows == s.rows && s'.calls == s.calls && s'.gates.Keys == s.gates.Keys
      && (forall h :: h in s.gates && h != 0 ==> s'.gates[h] == s.gates[h])
  {
    SampleRevocationIsValid();
    AtomicRevoke(s, 1, 0, SampleRevocation(), Some(Sampled()), 0);
  }

  function StaleRun(): seq<Step> { [Begin(1), Validate(0)] + [Commit(0)] }

  /** Gate 0 has revoked the lease and it is in the store, yet gate 1, already running, allows it afterwards. */
  lemma RunningGateStillAllows(s: System)
    requires s == Run(TwoGates(), Recall())
    ensures "l" in s.tables.leases && 0 in s.gates && "l" in s.gates[0].memory
    ensures |Run(s, StaleRun()).history| > |s.history|
    ensures AllowsLease(Run(s, StaleRun()).history[|s.history|], 1, "l")
  {
    RecallStores(TwoGates());
    RunAppend(s, [Begin(1), Validate(0)], [Commit(0)]);
    BeginPasses(s, 1);
    var passed := s.(calls := s.calls[0 := Passed(1)]);
    RunOne(passed, Commit(0));
    CommitAllows(passed, 1);
  }

  // ------------------------------------------------------------- an evaluation overtaken by its revocation

  ghost function Overtaken(): System { Run(Run(TwoGates(), [Begin(0), Validate(0)]), Recall()) }

  lemma OvertakenState()
    ensures var s := Overtaken();
      && Knows(s, 0, "l") && 0 in s.gates && s.rows == {} && 0 in s.calls && s.calls[0] == Passed(0)
  {
    BeginPasses(TwoGates(), 0);
    RecallStores(Run(TwoGates(), [Begin(0), Validate(0)]));
  }

  /** Gate 0 has published the revocation and knows it, and still allows the call that was past validation. */
  lemma OvertakenCallStillAllows(s: System)
    requires s == Overtaken()
    ensures Knows(s, 0, "l") && 0 in s.calls && PastValidation(s.calls[0], 0, "l")
    ensures |Apply(s, Commit(0)).history| > |s.history|
    ensures AllowsLease(Apply(s, Commit(0)).history[|s.history|], 0, "l")
  {
    OvertakenState();
    CommitAllows(s, 0);
  }

  // ------------------------------------------------------------- a revocation that is named twice

  function Refused(): Call { Validated(0, SampleCommand(), Sampled(), Invalid(LeaseRevoked)) }

  lemma RevokedLeaseIsRefused()
    ensures ValidateLease(SampleGate(), Sampled(), SampleCommand(), Some(SampleState()), {"l"}, 0) == Invalid(LeaseRevoked)
  {
    assert !PythonSpace("p"[0]) && !PythonSpace("d"[0]);
    assert AboutLease(SampleGate(), Sampled(), SampleCommand(), {"l"}, 0) == Invalid(LeaseRevoked);
  }

  lemma BeginWaitsRecalled(s: System)
    requires 0 in s.gates && s.gates[0].cfg == SampleGate() && 0 !in s.calls && s.rows == {}
    ensures Apply(s, Begin(0)) == s.(calls := s.calls[0 := Waiting(0)])
  {
    SampleIsAuthentic();
    assert Screen(SampleGate(), {}, s.gates[0].memory, SampleCommand(), Some(Sampled()), 0).None?;
  }

  lemma ValidateRefuses(s: System)
    requires 0 in s.gates && s.gates[0].cfg == SampleGate() && s.gates[0].memory.Keys == {"l"}
    requires 0 in s.calls && s.calls[0] == Waiting(0)
    ensures Apply(s, Validate(0)) == s.(calls := s.calls[0 := Refused()])
  {
    RevokedLeaseIsRefused();
  }

  lemma CommitDeclaresAgain(s: System)
    requires 0 in s.gates && s.gates[0].cfg == SampleGate() && s.rows == {}
    requires s.gates[0].memory == map["l" := RevokedRecord(SampleRevocation(), Sampled())]
    requires 0 in s.calls && s.calls[0] == Refused()
    ensures var emissions := Apply(s, Commit(0)).emissions;
      && |emissions| == |s.emissions| + 1 && s.emissions <= emissions
      && emissions[|s.emissions|].declaration.revocationId == Some("v")
  {
    var k := s.calls[0];
    assert MatchingRevocation(s.gates[0].memory, k.c, Some(k.lease), LeaseRevoked).Some?;
    assert Remember(s.rows, k.c).1;
  }

  ghost function Recalled(): System { Run(TwoGates(), Recall()) }

  /** The revocation declares a fallback, and the denial of the revoked lease declares one under the same id. */
  lemma RevocationNamedTwice(s: System)
    requires s == Apply(Apply(Apply(Recalled(), Begin(0)), Validate(0)), Commit(0))
    ensures |s.emissions| == 2
    ensures s.emissions[0].declaration.revocationId == s.emissions[1].declaration.revocationId == Some("v")
  {
    RecallStores(TwoGates());
    BeginWaitsRecalled(Recalled());
    var waiting := Apply(Recalled(), Begin(0));
    ValidateRefuses(waiting);
    CommitDeclaresAgain(Apply(waiting, Validate(0)));
  }
}
