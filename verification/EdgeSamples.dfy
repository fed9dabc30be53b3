/**
  A small configuration of the Rust verifier and an input it allows, with agent, command id and
  nonces left open: inputs for the witness lemmas.
 */
module EdgeSamples {
  import opened Json
  import opened MarkerProtocol
  import opened MarkerStore
  import opened EdgeVerifier
  import opened EdgeVerifierLaws
  import PayloadBudget

  function SampleTrusted(agent: string): Trusted {
    Trusted(
      "p", "d", "sha256:0", [PolicyReference("p", "d")], ["i"], ["remote_assist"],
      [IssuerScope("i", ["remote_assist"])], [Requirement("remote_assist", false, false, false, false)],
      [Bounds("remote_assist", Nothing, Nothing, Nothing, Nothing, Nothing, Nothing, Nothing)],
      [agent], "s", "s", ["e"], "s", [], 0, 600_000, 600_000, 30_000, 30_000)
  }

  /** Every signature verifies and no text is too large. */
  function SampleEnvironment(numberValue: string -> real): Environment {
    Environment((l: Claims, s: string, k: string) => true, (c: EdgeCommand, s: string, k: string) => true,
                (x: LocalContext, s: string, k: string) => true, (i: Input) => false, numberValue)
  }

  function NoLimits(): Constraints {
    Constraints(Nothing, Nothing, Nothing, Nothing, Nothing, Nothing, Nothing)
  }

  function SampleInput(agent: string, commandId: string, commandNonce: string, leaseNonce: string): Input {
    Input(
      Envelope(HMAC_ALG,
        Claims(SUPPORTED_PROTOCOL_VERSION, "m", "c", 0, LEASE_MESSAGE_TYPE, "l", "i", agent, "e", "r", "n",
               "remote_assist", NoLimits(), 0, 60_000, Nothing, leaseNonce, "p", "d"),
        "s"),
      EdgeCommand(SUPPORTED_PROTOCOL_VERSION, "m", "c", COMMAND_MESSAGE_TYPE, commandId, agent, agent, "e", "r", "n",
                  "remote_assist", commandNonce, 0, Object(map[]), Just("s")),
      LocalContext("r", "e", Just("e"), "n", 0, NetworkReport(Normal, true, 10.0, 0.0, 10.0, 0),
                   GeofenceReport("g", true, 0), Just("s")))
  }

  predicate Plain(s: string) { s != "" && !RustSpace(s[0]) }

  lemma PlainIsNotBlank(s: string)
    requires Plain(s)
    ensures !RustBlank(s)
  {
  }

  predicate AllPlain(values: seq<string>) { forall k :: 0 <= k < |values| ==> Plain(values[k]) }

  lemma AllPlainNoneBlank(values: seq<string>)
    requires AllPlain(values)
    ensures !AnyBlank(values)
  {
    forall k | 0 <= k < |values| ensures !RustBlank(values[k]) { PlainIsNotBlank(values[k]); }
  }

  lemma SampleTextsPresent(agent: string, commandId: string, commandNonce: string, leaseNonce: string)
    requires Plain(agent) && Plain(commandId) && Plain(commandNonce) && Plain(leaseNonce)
    ensures !AnyBlank(RequiredTexts(SampleInput(agent, commandId, commandNonce, leaseNonce), SampleTrusted(agent)))
  {
    AllPlainNoneBlank(RequiredTexts(SampleInput(agent, commandId, commandNonce, leaseNonce), SampleTrusted(agent)));
  }

  lemma SampleScopeIsGood(agent: string)
    requires Plain(agent)
    ensures !ScopeMalformed(SampleTrusted(agent))
  {
    var t := SampleTrusted(agent);
    AllPlainNoneBlank(t.acceptedCapabilities);
    AllPlainNoneBlank(t.commandAgentIds);
    AllPlainNoneBlank(t.issuerScopes[0].capabilities);
    assert !RustSpace("p"[0]) && !RustSpace("d"[0]) && !RustSpace("i"[0]);
    assert RequirementNames(t.requirements) == ["remote_assist"] && BoundNames(t.bounds) == ["remote_assist"];
    assert ["remote_assist"][1..] == [] && Occurrences([], "remote_assist") == 0;
    assert Occurrences(["remote_assist"], "remote_assist") == 1;
    assert TrimEnd("sha256:0") == "sha256:0" && TrimStart("sha256:0") == "sha256:0";
    assert "sha256:0"[..7] == HASH_PREFIX;
  }

  lemma EmptyPayloadFits()
    ensures PayloadBudget.WithinBudget(PayloadBudget.RustWeight, Object(map[]))
  {
    var payload := Object(map[]);
    assert payload.fields.Keys == {};
    PayloadBudget.ObjectNode(PayloadBudget.RustWeight, payload, PayloadBudget.MAX_DEPTH);
    PayloadBudget.ObjectNode(PayloadBudget.One, payload, PayloadBudget.MAX_DEPTH);
  }

  lemma SampleIsAdmitted(
    numberValue: string -> real, agent: string, commandId: string, commandNonce: string, leaseNonce: string)
    requires Plain(agent) && Plain(commandId) && Plain(commandNonce) && Plain(leaseNonce)
    ensures Admission(SampleEnvironment(numberValue), SampleInput(agent, commandId, commandNonce, leaseNonce),
                      SampleTrusted(agent), false).Pass?
  {
    var env, t := SampleEnvironment(numberValue), SampleTrusted(agent);
    var i := SampleInput(agent, commandId, commandNonce, leaseNonce);
    SampleTextsPresent(agent, commandId, commandNonce, leaseNonce);
    SampleScopeIsGood(agent);
    assert !RustSpace("p"[0]) && !RustSpace("d"[0]) && !RustSpace("s"[0]);
    assert !TextMissing(i, t) && !EnvelopeViolated(i);
    assert !TimesMalformed(i, t) && !MetricsMalformed(i, t);
    assert CommandAuth(env, i, t).Pass? && PolicyDigest(t, i.lease.claims).Pass?;
  }

  lemma SampleLeasePasses(
    numberValue: string -> real, agent: string, commandId: string, commandNonce: string, leaseNonce: string)
    ensures LeaseChecks(SampleEnvironment(numberValue), SampleInput(agent, commandId, commandNonce, leaseNonce),
                        SampleTrusted(agent)).Pass?
  {
    var i, t := SampleInput(agent, commandId, commandNonce, leaseNonce), SampleTrusted(agent);
    assert t.issuerScopes[0].issuerId == "i" && "remote_assist" in t.issuerScopes[0].capabilities;
    assert CapabilityAllowed(i.lease.claims, t);
    assert Limits(i.lease.claims, t).Pass? && LeaseTime(i.lease.claims, t).Pass?;
  }

  lemma SampleStatePasses(
    numberValue: string -> real, agent: string, commandId: string, commandNonce: string, leaseNonce: string)
    ensures StateChecks(SampleEnvironment(numberValue), SampleInput(agent, commandId, commandNonce, leaseNonce),
                        SampleTrusted(agent)).Pass?
  {
    assert !RustSpace("e"[0]) && !RustSpace("s"[0]);
  }

  lemma OpenWhenAllPass(env: Environment, i: Input, t: Trusted)
    requires PayloadBudget.WithinBudget(PayloadBudget.RustWeight, i.command.payload)
    requires Admission(env, i, t, false).Pass? && LeaseChecks(env, i, t).Pass? && StateChecks(env, i, t).Pass?
    requires Network(i.lease.claims.constraints, i.context.network) == Allow
    requires PayloadCheck(env.numberValue, i.lease.claims.constraints, i.command.payload).Pass?
    ensures Screened(env, i, t) == Allow
  {
  }

  lemma SampleIsAllowed(
    numberValue: string -> real, agent: string, commandId: string, commandNonce: string, leaseNonce: string)
    requires Plain(agent) && Plain(commandId) && Plain(commandNonce) && Plain(leaseNonce)
    ensures Screened(SampleEnvironment(numberValue), SampleInput(agent, commandId, commandNonce, leaseNonce),
                     SampleTrusted(agent)) == Allow
  {
    var i := SampleInput(agent, commandId, commandNonce, leaseNonce);
    EmptyPayloadFits();
    SampleIsAdmitted(numberValue, agent, commandId, commandNonce, leaseNonce);
    SampleLeasePasses(numberValue, agent, commandId, commandNonce, leaseNonce);
    SampleStatePasses(numberValue, agent, commandId, commandNonce, leaseNonce);
    assert PayloadCheck(numberValue, NoLimits(), i.command.payload).Pass?;
    OpenWhenAllPass(SampleEnvironment(numberValue), i, SampleTrusted(agent));
  }

  lemma VerifyWhenOpen(
    env: Environment, path: string -> string, disk: set<string>, i: Input, t: Trusted, io: nat -> bool)
    requires Screened(env, i, t) == Allow
    ensures VerifyOn(env, path, true, disk, i, t, io) == Conclude(path, disk, i, Allow, io)
  {
  }

  lemma SampleReplay(path: string -> string, i: Input, j: Input)
    requires Injective(path)
    requires i == SampleInput("a", "b:c", "u", "x") && j == SampleInput("a:b", "c", "v", "y")
    ensures var (disk, first) := Conclude(path, {}, i, Allow, FaultFree);
      first == Allow && Conclude(path, disk, j, Allow, FaultFree) == (disk, Deny(ReplayedCommand))
  {
    KeysCompareTails("a", "b:c", "a:b", "c");
    assert "a" + ":" + "b:c" == "a:b" + ":" + "c";
    ShortNonceIsUsable(i);
    ShortNonceIsUsable(j);
    FirstUseExactly(path, i, Allow);
    assert ReplayKeys(j)[0] == ReplayKeys(i)[0];
    SharedKeyDeniesFirstUse(path, {}, i, j, Allow, Allow);
  }

  lemma SampleIsAllowedAs(
    env: Environment, i: Input, t: Trusted, agent: string, commandId: string, commandNonce: string, leaseNonce: string)
    requires env == SampleEnvironment(env.numberValue) && t == SampleTrusted(agent)
    requires i == SampleInput(agent, commandId, commandNonce, leaseNonce)
    requires Plain(agent) && Plain(commandId) && Plain(commandNonce) && Plain(leaseNonce)
    ensures Screened(env, i, t) == Allow
  {
    SampleIsAllowed(env.numberValue, agent, commandId, commandNonce, leaseNonce);
  }

  lemma DeniedWhenUnusable(env: Environment, path: string -> string, i: Input, t: Trusted, io: nat -> bool)
    requires Screened(env, i, t) == Allow && !(CommandTextsUsable(i) && LeaseNonceUsable(i))
    ensures VerifyOn(env, path, true, {}, i, t, io) ==
            ({}, Deny(if CommandTextsUsable(i) then ReplayedNonce else ReplayedCommand))
  {
    VerifyWhenOpen(env, path, {}, i, t, io);
    UnusableCountsAsReplay(path, {}, i, Allow, io);
  }

  /** A command that passes every check, with a line break in its id, is denied on first use. */
  lemma LineBreakDeniesFirstUse(env: Environment, path: string -> string, i: Input, t: Trusted, io: nat -> bool)
    requires env == SampleEnvironment(env.numberValue) && t == SampleTrusted("a")
    requires i == SampleInput("a", "q\n", "u", "x")
    ensures Screened(env, i, t) == Allow && VerifyOn(env, path, true, {}, i, t, io) == ({}, Deny(ReplayedCommand))
  {
    assert "q\n"[1] == '\n' && !SingleLine(i.command.commandId);
    SampleIsAllowedAs(env, i, t, "a", "q\n", "u", "x");
    DeniedWhenUnusable(env, path, i, t, io);
  }

  /** And so is one whose lease nonce is its own formatted key. */
  lemma KeyAsNonceDeniesFirstUse(env: Environment, path: string -> string, i: Input, t: Trusted, io: nat -> bool)
    requires env == SampleEnvironment(env.numberValue) && t == SampleTrusted("a")
    requires i == SampleInput("a", "q", "u", CommandIdKey("a", "q"))
    ensures Screened(env, i, t) == Allow && VerifyOn(env, path, true, {}, i, t, io) == ({}, Deny(ReplayedNonce))
  {
    assert CommandIdKey("a", "q")[0] == 'c';
    assert CommandTextsUsable(i) && !LeaseNonceUsable(i);
    SampleIsAllowedAs(env, i, t, "a", "q", "u", CommandIdKey("a", "q"));
    DeniedWhenUnusable(env, path, i, t, io);
  }

  /**
    Two verifiers that trust different agents, `a` and `a:b`, share a store directory. Both
    commands pass all checks; the first is allowed, and the second is denied as a replay,
    although no command of its agent was ever seen.
   */
  lemma SharedDirectoryDeniesFirstUse(
    env: Environment, path: string -> string, i: Input, t: Trusted, j: Input, u: Trusted)
    requires Injective(path) && env == SampleEnvironment(env.numberValue)
    requires i == SampleInput("a", "b:c", "u", "x") && t == SampleTrusted("a")
    requires j == SampleInput("a:b", "c", "v", "y") && u == SampleTrusted("a:b")
    ensures Screened(env, i, t) == Allow && Screened(env, j, u) == Allow
    ensures var (disk, first) := VerifyOn(env, path, true, {}, i, t, FaultFree);
      first == Allow && VerifyOn(env, path, true, disk, j, u, FaultFree) == (disk, Deny(ReplayedCommand))
  {
    SampleIsAllowedAs(env, i, t, "a", "b:c", "u", "x");
    SampleIsAllowedAs(env, j, u, "a:b", "c", "v", "y");
    SampleReplay(path, i, j);
    VerifyWhenOpen(env, path, {}, i, t, FaultFree);
    VerifyWhenOpen(env, path, Conclude(path, {}, i, Allow, FaultFree).0, j, u, FaultFree);
  }

  lemma ShortNonceIsUsable(i: Input)
    requires Plain(i.lease.claims.nonce) && SingleLine(i.lease.claims.nonce) && |i.lease.claims.nonce| == 1
    ensures LeaseNonceUsable(i)
  {
    assert !RustSpace(i.lease.claims.nonce[0]);
  }

  lemma NonceTakesKey(path: string -> string, i: Input, j: Input)
    requires Injective(path)
    requires i == SampleInput("a", "q", "u", CommandIdKey("a", "w")) && j == SampleInput("a", "w", "v", "y")
    ensures var (disk, first) := Conclude(path, {}, i, Allow, FaultFree);
      first == Allow && Conclude(path, disk, j, Allow, FaultFree) == (disk, Deny(ReplayedCommand))
  {
    KeyIsSingleLine("a", "w");
    KeysOfOneAgent("a", "q", "w");
    CommandKeysDiffer("a", "w", "a", "u");
    assert "q"[0] != "w"[0];
    assert CommandTextsUsable(i) && LeaseNonceUsable(i);
    FirstUseExactly(path, i, Allow);
    ShortNonceIsUsable(j);
    assert ReplayKeys(j)[0] == ReplayKeys(i)[2];
    SharedKeyDeniesFirstUse(path, {}, i, j, Allow, Allow);
  }

  /**
    One agent and one configuration are enough: an allowed command whose lease nonce spells
    another command's key makes that command, never seen before, a replay.
   */
  lemma NonceDeniesOtherCommand(env: Environment, path: string -> string, i: Input, j: Input, t: Trusted)
    requires Injective(path) && env == SampleEnvironment(env.numberValue) && t == SampleTrusted("a")
    requires i == SampleInput("a", "q", "u", CommandIdKey("a", "w")) && j == SampleInput("a", "w", "v", "y")
    ensures Screened(env, i, t) == Allow && Screened(env, j, t) == Allow
    ensures var (disk, first) := VerifyOn(env, path, true, {}, i, t, FaultFree);
      first == Allow && VerifyOn(env, path, true, disk, j, t, FaultFree) == (disk, Deny(ReplayedCommand))
  {
    assert CommandIdKey("a", "w")[0] == 'c';
    SampleIsAllowedAs(env, i, t, "a", "q", "u", CommandIdKey("a", "w"));
    SampleIsAllowedAs(env, j, t, "a", "w", "v", "y");
    NonceTakesKey(path, i, j);
    VerifyWhenOpen(env, path, {}, i, t, FaultFree);
    VerifyWhenOpen(env, path, Conclude(path, {}, i, Allow, FaultFree).0, j, t, FaultFree);
  }
}
