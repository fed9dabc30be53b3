/**
  What the edge verifier's decisions mean: its 64-bit time checks agree with integers, each
  accepted command uses up exactly three fresh replay keys, and nothing else changes the store.
 */
module EdgeVerifierLaws {
  import opened MarkerProtocol
  import opened MarkerStore
  import opened EdgeVerifier

  // ------------------------------------------------------------- 64-bit times

  /** The integer meaning of a freshness window of `maxAge` plus the skew. */
  predicate Fresh(timestamp: int, now: int, maxAge: int) {
    timestamp <= now + CLOCK_SKEW_MS as int && now - timestamp <= maxAge + CLOCK_SKEW_MS as int
  }

  /** What must fit into 64 bits for a window to be usable at all. */
  predicate WindowFits(now: i64, maxAge: i64) {
    Fits(now as int + CLOCK_SKEW_MS as int) && Fits(maxAge as int + CLOCK_SKEW_MS as int)
  }

  /**
    The nonnegativity guard makes every checked 64-bit time check the integer check: nothing
    overflows but a window that itself does not fit, and such a window denies everything.
   */
  lemma TimesExact(i: Input, t: Trusted)
    requires !TimesMalformed(i, t)
    ensures CommandTime(i.command.createdAt, t).Pass? <==>
            WindowFits(t.now, t.maxCommandAgeMs)
            && Fresh(i.command.createdAt as int, t.now as int, t.maxCommandAgeMs as int)
    ensures StateTime(i.context, t).Pass? <==>
            WindowFits(t.now, t.maxStateAgeMs)
            && Fresh(i.context.observedAt as int, t.now as int, t.maxStateAgeMs as int)
            && Fresh(i.context.network.observedAt as int, t.now as int, t.maxStateAgeMs as int)
            && Fresh(i.context.geofence.verifiedAt as int, t.now as int, t.maxStateAgeMs as int)
    ensures var l := i.lease.claims;
      LeaseTime(l, t).Pass? <==>
      && (l.notBefore.Just? ==> l.notBefore.value <= t.now)
      && l.issuedAt <= t.now < l.expiresAt
      && l.expiresAt as int - l.issuedAt as int <= t.maxLeaseTtlMs as int
      && Fits(t.maxLeaseAgeMs as int + CLOCK_SKEW_MS as int)
      && t.now as int - l.issuedAt as int <= t.maxLeaseAgeMs as int + CLOCK_SKEW_MS as int
  {
    CheckedSubExact(t.now, i.command.createdAt);
    CheckedSubExact(t.now, i.context.observedAt);
    CheckedSubExact(t.now, i.context.network.observedAt);
    CheckedSubExact(t.now, i.context.geofence.verifiedAt);
    CheckedSubExact(t.now, i.lease.claims.issuedAt);
    CheckedSubExact(i.lease.claims.expiresAt, i.lease.claims.issuedAt);
  }

  // ------------------------------------------------------------- what an open decision is bound to

  lemma OpenPassed(env: Environment, i: Input, t: Trusted, overBudget: bool)
    requires !Screening(env, i, t, overBudget).Deny?
    ensures Admission(env, i, t, overBudget).Pass? && LeaseChecks(env, i, t).Pass? && StateChecks(env, i, t).Pass?
    ensures Screening(env, i, t, overBudget) == Network(i.lease.claims.constraints, i.context.network)
  {
  }

  lemma CommandBinds(env: Environment, i: Input, t: Trusted, overBudget: bool)
    requires Admission(env, i, t, overBudget).Pass?
    ensures |t.issuerIds| == |t.commandAgentIds| == |t.stateEdgeIds| == 1
    ensures i.command.authenticatedAgentId == i.command.agentId && t.commandAgentIds == [i.command.agentId]
    ensures i.command.signature.Just?
    ensures env.commandSigned(i.command, i.command.signature.value, t.commandSecret)
  {
    assert CommandAuth(env, i, t).Pass?;
  }

  lemma LeaseBinds(env: Environment, i: Input, t: Trusted)
    requires LeaseChecks(env, i, t).Pass?
    ensures i.lease.claims.issuerId in t.issuerIds && i.lease.claims.capability in t.acceptedCapabilities
    ensures env.leaseSigned(i.lease.claims, i.lease.signature, t.leaseSecret)
    ensures i.lease.claims.leaseId !in t.revocations && Context(i).Pass?
  {
  }

  lemma ContextBinds(env: Environment, i: Input, t: Trusted)
    requires StateChecks(env, i, t).Pass?
    ensures var x := i.context;
      && x.authenticatedEdgeAgentId == Just(x.edgeAgentId) && x.edgeAgentId in t.stateEdgeIds
      && x.signature.Just? && env.contextSigned(x, x.signature.value, t.stateSecret)
  {
    assert StateAuth(env, i.context, t).Pass?;
  }

  /** Command, lease and local context agree on agent, edge, robot, mission and capability. */
  predicate AgreesThroughout(i: Input) {
    var l, c, x := i.lease.claims, i.command, i.context;
    && c.authenticatedAgentId == c.agentId == l.agentId
    && c.edgeAgentId == x.edgeAgentId == l.edgeAgentId && x.authenticatedEdgeAgentId == Just(l.edgeAgentId)
    && c.robotId == x.robotId == l.robotId && c.missionId == x.missionId == l.missionId
    && c.capability == l.capability
  }

  /** All three parts are signed under the trusted secrets. */
  ghost predicate SignedThroughout(env: Environment, i: Input, t: Trusted) {
    && i.command.signature.Just? && env.commandSigned(i.command, i.command.signature.value, t.commandSecret)
    && env.leaseSigned(i.lease.claims, i.lease.signature, t.leaseSecret)
    && i.context.signature.Just? && env.contextSigned(i.context, i.context.signature.value, t.stateSecret)
  }

  lemma ContextAgrees(i: Input)
    requires Context(i).Pass? && i.command.authenticatedAgentId == i.command.agentId
    requires i.context.authenticatedEdgeAgentId == Just(i.context.edgeAgentId)
    ensures AgreesThroughout(i)
  {
  }

  lemma OnlyMember(names: seq<string>, name: string)
    requires |names| == 1 && name in names
    ensures names == [name]
  {
  }

  /**
    Whatever the checks leave open is one authority chain: command, lease and local context
    agree, each signed, from the one trusted agent, issuer and edge, and not revoked.
   */
  lemma OpenIsBound(env: Environment, i: Input, t: Trusted, overBudget: bool)
    requires !Screening(env, i, t, overBudget).Deny?
    ensures AgreesThroughout(i) && SignedThroughout(env, i, t)
    ensures var l := i.lease.claims;
      && t.commandAgentIds == [l.agentId] && t.issuerIds == [l.issuerId] && t.stateEdgeIds == [l.edgeAgentId]
      && l.capability in t.acceptedCapabilities && l.leaseId !in t.revocations
  {
    OpenPassed(env, i, t, overBudget);
    CommandBinds(env, i, t, overBudget);
    LeaseBinds(env, i, t);
    ContextBinds(env, i, t);
    ContextAgrees(i);
    OnlyMember(t.issuerIds, i.lease.claims.issuerId);
    OnlyMember(t.stateEdgeIds, i.context.edgeAgentId);
  }

  /**
    An open decision is Degrade exactly when the network exceeds a threshold of the lease, and
    then the network is attached and the lease itself names a fallback and asks for degrading.
   */
  lemma DegradeExactly(env: Environment, i: Input, t: Trusted, overBudget: bool)
    requires !Screening(env, i, t, overBudget).Deny?
    ensures var constraints, network := i.lease.claims.constraints, i.context.network;
      && !HardDenial(network)
      && (Screening(env, i, t, overBudget) == Degrade <==> ThresholdDenial(constraints, network))
      && (ThresholdDenial(constraints, network) ==>
          constraints.fallbackOnDegrade.Just? && constraints.networkViolationAction == Just(DegradeAction))
  {
    OpenPassed(env, i, t, overBudget);
  }

  // ------------------------------------------------------------- replay keys

  lemma CommandKeysDiffer(a: string, x: string, b: string, y: string)
    ensures CommandIdKey(a, x) != CommandNonceKey(b, y)
  {
    assert CommandIdKey(a, x)[8] == 'i';
    assert CommandNonceKey(b, y)[8] == 'n';
  }

  /** Keys of one agent are as distinct as its ids and nonces. */
  lemma KeysOfOneAgent(a: string, x: string, y: string)
    ensures CommandIdKey(a, x) == CommandIdKey(a, y) <==> x == y
    ensures CommandNonceKey(a, x) == CommandNonceKey(a, y) <==> x == y
  {
    var id, nonce := COMMAND_ID_PREFIX + a + ":", COMMAND_NONCE_PREFIX + a + ":";
    assert CommandIdKey(a, x)[|id|..] == x && CommandIdKey(a, y)[|id|..] == y;
    assert CommandNonceKey(a, x)[|nonce|..] == x && CommandNonceKey(a, y)[|nonce|..] == y;
  }

  /** One agent's name, up to a separator, starts the other's. */
  predicate NamesOverlap(a: string, b: string) {
    a == b || a + ":" <= b || b + ":" <= a
  }

  lemma KeysCompareTails(a: string, x: string, b: string, y: string)
    ensures CommandIdKey(a, x) == CommandIdKey(b, y) <==> a + ":" + x == b + ":" + y
    ensures CommandNonceKey(a, x) == CommandNonceKey(b, y) <==> a + ":" + x == b + ":" + y
  {
    var n, m := |COMMAND_ID_PREFIX|, |COMMAND_NONCE_PREFIX|;
    assert CommandIdKey(a, x) == COMMAND_ID_PREFIX + (a + ":" + x);
    assert CommandIdKey(b, y) == COMMAND_ID_PREFIX + (b + ":" + y);
    assert CommandIdKey(a, x)[n..] == a + ":" + x && CommandIdKey(b, y)[n..] == b + ":" + y;
    assert CommandNonceKey(a, x) == COMMAND_NONCE_PREFIX + (a + ":" + x);
    assert CommandNonceKey(b, y) == COMMAND_NONCE_PREFIX + (b + ":" + y);
    assert CommandNonceKey(a, x)[m..] == a + ":" + x && CommandNonceKey(b, y)[m..] == b + ":" + y;
  }

  lemma SharedKeyMeansOverlap(a: string, x: string, b: string, y: string)
    requires |a| <= |b| && a + ":" + x == b + ":" + y
    ensures a == b || a + ":" <= b
  {
    var key := a + ":" + x;
    assert key[..|a|] == a && key[..|b|] == b;
    if |a| < |b| { assert key[|a|] == ':' && key[|a|] == b[|a|] && b[..|a|] == a; }
  }

  predicate SingleLine(s: string) { '\n' !in s && '\r' !in s }

  /** A text that a verifier admits as an id or a nonce and that can be part of a replay key. */
  predicate UsableText(s: string) { !RustBlank(s) && SingleLine(s) }

  lemma OverlapGivesSharedKey(a: string, b: string) returns (x: string, y: string)
    requires a == b || a + ":" <= b
    ensures a + ":" + x == b + ":" + y && !RustBlank(x) && !RustBlank(y)
    ensures SingleLine(b) ==> UsableText(x) && UsableText(y)
  {
    y := "q";
    assert !RustSpace('q') && y[0] == 'q';
    if a == b {
      x := y;
    } else {
      var rest := b[|a| + 1..];
      x := rest + (":" + y);
      assert x[|rest| + 1] == 'q' && b == a + ":" + rest;
      assert a + ":" + x == b + ":" + y;
    }
  }

  /**
    Two agents can share a formatted key, of either kind, exactly when their names overlap, and
    then with ids and nonces that a verifier admits.
   */
  lemma AgentsShareKeysExactly(a: string, b: string)
    ensures (exists x, y :: CommandIdKey(a, x) == CommandIdKey(b, y)) <==> NamesOverlap(a, b)
    ensures (exists x, y :: CommandNonceKey(a, x) == CommandNonceKey(b, y)) <==> NamesOverlap(a, b)
    ensures NamesOverlap(a, b) && SingleLine(a) && SingleLine(b) ==>
            exists x, y :: UsableText(x) && UsableText(y)
              && CommandIdKey(a, x) == CommandIdKey(b, y) && CommandNonceKey(a, x) == CommandNonceKey(b, y)
  {
    forall x, y ensures CommandIdKey(a, x) == CommandIdKey(b, y) <==> a + ":" + x == b + ":" + y
      ensures CommandNonceKey(a, x) == CommandNonceKey(b, y) <==> a + ":" + x == b + ":" + y
    {
      KeysCompareTails(a, x, b, y);
    }
    forall x, y | a + ":" + x == b + ":" + y ensures NamesOverlap(a, b) {
      if |a| <= |b| { SharedKeyMeansOverlap(a, x, b, y); } else { SharedKeyMeansOverlap(b, y, a, x); }
    }
    if a == b || a + ":" <= b {
      var x, y := OverlapGivesSharedKey(a, b);
      assert CommandIdKey(a, x) == CommandIdKey(b, y) && CommandNonceKey(a, x) == CommandNonceKey(b, y);
    } else if b + ":" <= a {
      var y, x := OverlapGivesSharedKey(b, a);
      assert CommandIdKey(a, x) == CommandIdKey(b, y) && CommandNonceKey(a, x) == CommandNonceKey(b, y);
    }
  }

  /** The three keys can be consumed together, and none has been. */
  predicate Acceptable(path: string -> string, disk: set<string>, i: Input) {
    var keys := ReplayKeys(i);
    && (forall k :: 0 <= k < 3 ==> ValidNonceText(keys[k]) && path(keys[k]) !in disk)
    && keys[2] != keys[0] && keys[2] != keys[1]
  }

  lemma UsableKeys(i: Input)
    ensures var keys := ReplayKeys(i);
      FirstUnusable(keys) == 3 <==>
      (forall k :: 0 <= k < 3 ==> ValidNonceText(keys[k])) && keys[2] != keys[0] && keys[2] != keys[1]
  {
    var keys := ReplayKeys(i);
    CommandKeysDiffer(i.command.authenticatedAgentId, i.command.commandId, i.command.authenticatedAgentId,
                      i.command.commandNonce);
    assert keys[..0] == [] && keys[..1] == [keys[0]] && keys[..2] == [keys[0], keys[1]];
    assert Unusable(keys, 0) <==> !ValidNonceText(keys[0]);
    assert Unusable(keys, 1) <==> !ValidNonceText(keys[1]);
    assert Unusable(keys, 2) <==> !ValidNonceText(keys[2]) || keys[2] == keys[0] || keys[2] == keys[1];
  }

  lemma AnswerWhenAcceptable(path: string -> string, disk: set<string>, i: Input)
    requires Injective(path)
    ensures Answer(path, disk, ReplayKeys(i)).Consumed? <==> Acceptable(path, disk, i)
    ensures Acceptable(path, disk, i) ==>
            Markers(path, ReplayKeys(i)) !! disk && |Markers(path, ReplayKeys(i))| == 3
  {
    var keys := ReplayKeys(i);
    UsableKeys(i);
    CommandKeysDiffer(i.command.authenticatedAgentId, i.command.commandId, i.command.authenticatedAgentId,
                      i.command.commandNonce);
    if Acceptable(path, disk, i) {
      var markers := {path(keys[0])} + {path(keys[1])} + {path(keys[2])};
      assert path(keys[0]) in Markers(path, keys);
      assert path(keys[1]) in Markers(path, keys);
      assert path(keys[2]) in Markers(path, keys);
      assert Markers(path, keys) == markers;
    }
  }

  // ------------------------------------------------------------- conservation

  /**
    A fault-free `verify`. It accepts exactly when the checks leave the decision open and the
    three replay keys are usable and fresh; then it adds exactly three markers, and a denial
    leaves the store as it was. A replay denial names the lease nonce exactly when the nonce
    is the first offending key.
   */
  lemma ConcludeLaw(path: string -> string, disk: set<string>, i: Input, open: Decision)
    requires Injective(path)
    ensures var (disk', decision) := Conclude(path, disk, i, open, FaultFree);
      && (!decision.Deny? <==> !open.Deny? && Acceptable(path, disk, i))
      && (!decision.Deny? ==>
          decision == open && disk' == disk + Markers(path, ReplayKeys(i)) && |disk'| == |disk| + 3)
      && (decision.Deny? ==> disk' == disk)
      && (!open.Deny? ==> (decision == Deny(ReplayedNonce) <==> Answer(path, disk, ReplayKeys(i)) == Rejected(2)))
  {
    if !open.Deny? {
      FaultFreeConsume(path, disk, ReplayKeys(i));
      AnswerWhenAcceptable(path, disk, i);
    }
  }

  // ------------------------------------------------------------- texts no key can be made of

  lemma KeyIsSingleLine(a: string, x: string)
    ensures ValidNonceText(CommandIdKey(a, x)) <==> SingleLine(a) && SingleLine(x)
    ensures ValidNonceText(CommandNonceKey(a, x)) <==> SingleLine(a) && SingleLine(x)
  {
    var id, nonce := CommandIdKey(a, x), CommandNonceKey(a, x);
    assert id[0] == 'c' && nonce[0] == 'c' && !RustSpace('c');
    assert SingleLine(COMMAND_ID_PREFIX) && SingleLine(COMMAND_NONCE_PREFIX) && SingleLine(":");
  }

  /** The command's own texts have no line break. */
  predicate CommandTextsUsable(i: Input) {
    && SingleLine(i.command.authenticatedAgentId) && SingleLine(i.command.commandId)
    && SingleLine(i.command.commandNonce)
  }

  /** The lease nonce is a valid text of its own and none of the formatted keys. */
  predicate LeaseNonceUsable(i: Input) {
    var nonce := i.lease.claims.nonce;
    && ValidNonceText(nonce)
    && nonce != CommandIdKey(i.command.authenticatedAgentId, i.command.commandId)
    && nonce != CommandNonceKey(i.command.authenticatedAgentId, i.command.commandNonce)
  }

  lemma UnusableIndex(i: Input)
    ensures FirstUnusable(ReplayKeys(i)) == 3 <==> CommandTextsUsable(i) && LeaseNonceUsable(i)
    ensures FirstUnusable(ReplayKeys(i)) == 2 <==> CommandTextsUsable(i) && !LeaseNonceUsable(i)
  {
    var c, keys := i.command, ReplayKeys(i);
    KeyIsSingleLine(c.authenticatedAgentId, c.commandId);
    KeyIsSingleLine(c.authenticatedAgentId, c.commandNonce);
    UsableKeys(i);
    CommandKeysDiffer(c.authenticatedAgentId, c.commandId, c.authenticatedAgentId, c.commandNonce);
    assert keys[..0] == [] && keys[..1] == [keys[0]];
    assert Unusable(keys, 0) <==> !ValidNonceText(keys[0]);
    assert Unusable(keys, 1) <==> !ValidNonceText(keys[1]);
  }

  /**
    A command no key can be made of is denied on first use, on every store and whatever the I/O
    does, and leaves the store alone: as a replayed command when a line break is in its own
    texts, else as a replayed nonce.
   */
  lemma UnusableCountsAsReplay(path: string -> string, disk: set<string>, i: Input, open: Decision, io: nat -> bool)
    requires !open.Deny? && !(CommandTextsUsable(i) && LeaseNonceUsable(i))
    ensures Conclude(path, disk, i, open, io) ==
            (disk, Deny(if CommandTextsUsable(i) then ReplayedNonce else ReplayedCommand))
  {
    UnusableIndex(i);
    StartHoldsNothing(path, Keys, ReplayKeys(i));
  }

  /**
    The first use of a command that its checks left open, on an empty fault-free store, is
    accepted exactly when its own texts are single-line and its lease nonce is a valid text
    other than the two formatted keys.
   */
  lemma FirstUseExactly(path: string -> string, i: Input, open: Decision)
    requires Injective(path) && !open.Deny?
    ensures Conclude(path, {}, i, open, FaultFree).1 == open <==> CommandTextsUsable(i) && LeaseNonceUsable(i)
  {
    UnusableIndex(i);
    UsableKeys(i);
    ConcludeLaw(path, {}, i, open);
  }

  // ------------------------------------------------------------- a second use

  /** The two inputs have no replay key in common. */
  predicate KeysApart(i: Input, j: Input) {
    forall k, l :: 0 <= k < 3 && 0 <= l < 3 ==> ReplayKeys(i)[k] != ReplayKeys(j)[l]
  }

  lemma MarkersApart(path: string -> string, i: Input, j: Input)
    requires Injective(path)
    ensures KeysApart(i, j) <==> forall l :: 0 <= l < 3 ==> path(ReplayKeys(j)[l]) !in Markers(path, ReplayKeys(i))
  {
    forall l | 0 <= l < 3
      ensures path(ReplayKeys(j)[l]) in Markers(path, ReplayKeys(i)) <==>
              exists k :: 0 <= k < 3 && ReplayKeys(i)[k] == ReplayKeys(j)[l]
    {
      forall k | 0 <= k < 3 ensures path(ReplayKeys(i)[k]) in Markers(path, ReplayKeys(i)) {
      }
    }
  }

  /** None of the keys has been consumed. */
  predicate Unused(path: string -> string, disk: set<string>, i: Input) {
    forall k :: 0 <= k < 3 ==> path(ReplayKeys(i)[k]) !in disk
  }

  /**
    The use after an accepted one, on a fault-free store: an open command is accepted exactly
    when its texts make keys, none of them was on the store before, and none is one of the keys
    just consumed.
   */
  lemma SecondUseExactly(
    path: string -> string, disk: set<string>, i: Input, j: Input, first: Decision, second: Decision)
    requires Injective(path) && !first.Deny? && !second.Deny?
    requires Conclude(path, disk, i, first, FaultFree).1 == first
    ensures var disk' := Conclude(path, disk, i, first, FaultFree).0;
      Conclude(path, disk', j, second, FaultFree).1 == second <==>
      CommandTextsUsable(j) && LeaseNonceUsable(j) && Unused(path, disk, j) && KeysApart(i, j)
  {
    ConcludeLaw(path, disk, i, first);
    var disk' := Conclude(path, disk, i, first, FaultFree).0;
    ConcludeLaw(path, disk', j, second);
    UnusableIndex(j);
    UsableKeys(j);
    MarkersApart(path, i, j);
    assert disk' == disk + Markers(path, ReplayKeys(i));
  }

  /** One of the command's own two keys is among the keys of `i`. */
  predicate CommandKeyTaken(i: Input, j: Input) {
    ReplayKeys(j)[0] in ReplayKeys(i) || ReplayKeys(j)[1] in ReplayKeys(i)
  }

  /**
    A never-seen command that shares any key with an accepted one is denied as a replay: of the
    command when one of its own two keys is taken, else of the lease nonce.
   */
  lemma SharedKeyDeniesFirstUse(
    path: string -> string, disk: set<string>, i: Input, j: Input, first: Decision, second: Decision)
    requires Injective(path) && !first.Deny? && !second.Deny?
    requires Conclude(path, disk, i, first, FaultFree).1 == first
    requires CommandTextsUsable(j) && LeaseNonceUsable(j) && Unused(path, disk, j) && !KeysApart(i, j)
    ensures var disk' := Conclude(path, disk, i, first, FaultFree).0;
      Conclude(path, disk', j, second, FaultFree) ==
      (disk', Deny(if CommandKeyTaken(i, j) then ReplayedCommand else ReplayedNonce))
  {
    ConcludeLaw(path, disk, i, first);
    var disk' := Conclude(path, disk, i, first, FaultFree).0;
    UnusableIndex(j);
    FirstTaken(path, disk, i, j);
    FaultFreeConsume(path, disk', ReplayKeys(j));
  }

  lemma FirstTaken(path: string -> string, disk: set<string>, i: Input, j: Input)
    requires Injective(path) && Unused(path, disk, j) && !KeysApart(i, j)
    ensures var at := FirstPresent(path, disk + Markers(path, ReplayKeys(i)), ReplayKeys(j));
      at < 3 && (at == 2 <==> !CommandKeyTaken(i, j))
  {
    var taken, keys := Markers(path, ReplayKeys(i)), ReplayKeys(j);
    forall l | 0 <= l < 3 ensures path(keys[l]) in taken <==> keys[l] in ReplayKeys(i) {
      if keys[l] in ReplayKeys(i) {
        var k :| 0 <= k < 3 && ReplayKeys(i)[k] == keys[l];
        assert path(ReplayKeys(i)[k]) in taken;
      }
    }
    assert path(keys[0]) in taken <==> keys[0] in ReplayKeys(i);
    assert path(keys[1]) in taken <==> keys[1] in ReplayKeys(i);
    assert path(keys[2]) in taken <==> keys[2] in ReplayKeys(i);
    MarkersApart(path, i, j);
  }

  // ------------------------------------------------------------- runs

  /** One call of `verify`: its input and what its checks leave open. */
  datatype Request = Request(input: Input, open: Decision)

  ghost function RequestOf(env: Environment, i: Input, t: Trusted): Request {
    Request(i, Screened(env, i, t))
  }

  /** Calls one after the other on a fault-free store: the final store and the decisions. */
  ghost function RunRequests(path: string -> string, disk: set<string>, requests: seq<Request>)
    : (result: (set<string>, seq<Decision>))
    ensures |result.1| == |requests|
    decreases |requests|
  {
    if requests == [] then (disk, [])
    else
      var (disk', decision) := Conclude(path, disk, requests[0].input, requests[0].open, FaultFree);
      var (final, rest) := RunRequests(path, disk', requests[1..]);
      (final, [decision] + rest)
  }

  function Accepted(decisions: seq<Decision>): nat {
    if decisions == [] then 0 else (if decisions[0].Deny? then 0 else 1) + Accepted(decisions[1..])
  }

  lemma {:induction false} RequestsGrowStore(path: string -> string, disk: set<string>, requests: seq<Request>)
    requires Injective(path)
    ensures var (final, decisions) := RunRequests(path, disk, requests);
      disk <= final && |final| == |disk| + 3 * Accepted(decisions)
    decreases |requests|
  {
    if requests != [] {
      ConcludeLaw(path, disk, requests[0].input, requests[0].open);
      var (disk', _) := Conclude(path, disk, requests[0].input, requests[0].open, FaultFree);
      RequestsGrowStore(path, disk', requests[1..]);
      var decisions := RunRequests(path, disk, requests).1;
      assert decisions[1..] == RunRequests(path, disk', requests[1..]).1;
    }
  }

  /** What a caller hands to `verify`. */
  datatype Job = Job(input: Input, trusted: Trusted)

  ghost function RequestsOf(env: Environment, jobs: seq<Job>): seq<Request> {
    seq(|jobs|, k requires 0 <= k < |jobs| => RequestOf(env, jobs[k].input, jobs[k].trusted))
  }

  /** `verify` on one job after the other. */
  ghost function VerifyAll(env: Environment, path: string -> string, disk: set<string>, jobs: seq<Job>)
    : (set<string>, seq<Decision>)
    decreases |jobs|
  {
    if jobs == [] then (disk, [])
    else
      var (disk', decision) := VerifyOn(env, path, true, disk, jobs[0].input, jobs[0].trusted, FaultFree);
      var (final, rest) := VerifyAll(env, path, disk', jobs[1..]);
      (final, [decision] + rest)
  }

  lemma OneVerifyIsOneRequest(env: Environment, path: string -> string, disk: set<string>, job: Job)
    ensures var r := RequestOf(env, job.input, job.trusted);
      VerifyOn(env, path, true, disk, job.input, job.trusted, FaultFree)
      == Conclude(path, disk, r.input, r.open, FaultFree)
  {
  }

  lemma {:induction false} VerifyAllRunsRequests(
    env: Environment, path: string -> string, disk: set<string>, jobs: seq<Job>)
    ensures VerifyAll(env, path, disk, jobs) == RunRequests(path, disk, RequestsOf(env, jobs))
    decreases |jobs|
  {
    if jobs != [] {
      var requests := RequestsOf(env, jobs);
      OneVerifyIsOneRequest(env, path, disk, jobs[0]);
      assert requests[1..] == RequestsOf(env, jobs[1..]);
      VerifyAllRunsRequests(
        env, path, Conclude(path, disk, requests[0].input, requests[0].open, FaultFree).0, jobs[1..]);
    }
  }

  /** The store grows by three markers per allowed or degraded command, and by nothing else. */
  lemma StoreSizeLaw(env: Environment, path: string -> string, disk: set<string>, jobs: seq<Job>)
    requires Injective(path)
    ensures var (final, decisions) := VerifyAll(env, path, disk, jobs);
      disk <= final && |final| == |disk| + 3 * Accepted(decisions)
  {
    VerifyAllRunsRequests(env, path, disk, jobs);
    RequestsGrowStore(path, disk, RequestsOf(env, jobs));
  }

  // ------------------------------------------------------------- single use

  /** Call `id` of a store run consumed the keys of an input whose checks left `open`, and was accepted. */
  ghost predicate AcceptedAs(s: Store, id: nat, i: Input, open: Decision) {
    && id in s.calls && s.calls[id].keys == ReplayKeys(i) && s.calls[id].phase.Done?
    && !Final(open, s.calls[id].phase.result).Deny?
  }

  lemma AcceptedSucceeded(s: Store, id: nat, i: Input, open: Decision, k: nat)
    requires AcceptedAs(s, id, i, open) && k < 3
    ensures Succeeded(s, id, ReplayKeys(i)[k])
  {
  }

  /**
    Single use at the verifier. Whatever is in the directory at the start, and however calls of
    any number of verifiers, I/O errors and crashes interleave, two accepted commands have
    different lease nonces, and for one agent different command ids and command nonces. The
    digest of a key need not be injective.
   */
  lemma VerifierSingleUse(
    path: string -> string, disk: set<string>, steps: seq<Step>, a: nat, b: nat, i: Input, j: Input,
    first: Decision, second: Decision)
    requires a != b
    requires AcceptedAs(Run(path, Store(disk, map[]), steps), a, i, first)
    requires AcceptedAs(Run(path, Store(disk, map[]), steps), b, j, second)
    ensures i.lease.claims.nonce != j.lease.claims.nonce
    ensures i.command.authenticatedAgentId == j.command.authenticatedAgentId ==>
            i.command.commandId != j.command.commandId && i.command.commandNonce != j.command.commandNonce
  {
    var s := Run(path, Store(disk, map[]), steps);
    forall k: nat | k < 3 ensures ReplayKeys(i)[k] != ReplayKeys(j)[k] {
      AcceptedSucceeded(s, a, i, first, k);
      AcceptedSucceeded(s, b, j, second, k);
      if ReplayKeys(i)[k] == ReplayKeys(j)[k] { MarkerExclusive(path, disk, steps, a, b, ReplayKeys(i)[k]); }
    }
    assert ReplayKeys(i)[0] != ReplayKeys(j)[0] && ReplayKeys(i)[1] != ReplayKeys(j)[1];
    assert ReplayKeys(i)[2] != ReplayKeys(j)[2];
    KeysOfOneAgent(i.command.authenticatedAgentId, i.command.commandId, j.command.commandId);
    KeysOfOneAgent(i.command.authenticatedAgentId, i.command.commandNonce, j.command.commandNonce);
  }

  /** A call of `verify` that its checks left open is such a call of a store run. */
  lemma VerifyIsRun(
    env: Environment, path: string -> string, s: Store, id: nat, i: Input, t: Trusted, io: nat -> bool)
    returns (steps: seq<Step>)
    requires Inv(path, s) && id !in s.calls && !Screened(env, i, t).Deny?
    ensures var (disk, decision) := VerifyOn(env, path, true, s.disk, i, t, io);
      var s' := Run(path, s, steps);
      && id in s'.calls && s' == Store(disk, s.calls[id := s'.calls[id]])
      && (!decision.Deny? <==> AcceptedAs(s', id, i, Screened(env, i, t)))
  {
    steps := ConsumeIsRun(path, s, id, Keys, ReplayKeys(i), io);
  }

  /**
    Whatever the I/O does, a call of `verify` removes nothing it found, and an acceptance means
    that none of its three markers was there before and all of them are there after.
   */
  lemma AcceptedIsFresh(path: string -> string, disk: set<string>, i: Input, open: Decision, io: nat -> bool)
    ensures var (disk', decision) := Conclude(path, disk, i, open, io);
      && disk <= disk'
      && (!decision.Deny? ==>
          forall k :: 0 <= k < 3 ==> path(ReplayKeys(i)[k]) !in disk && path(ReplayKeys(i)[k]) in disk')
  {
    if !open.Deny? {
      var start := Store(disk, map[]);
      var steps := ConsumeIsRun(path, start, 0, Keys, ReplayKeys(i), io);
      OriginalStays(path, disk, steps, 0, ReplayKeys(i)[0]);
      OriginalStays(path, disk, steps, 0, ReplayKeys(i)[1]);
      OriginalStays(path, disk, steps, 0, ReplayKeys(i)[2]);
    }
  }
}
