/**
  The fallback action is chosen locally: two runs of an installation that differ only in the
  fallback actions that revocations request decide and declare exactly the same.
 */
module RequestedFallback {
  import opened Core
  import opened Conformance
  import opened Gate
  import opened GateRuns

  predicate SameButRequest(a: Revocation, b: Revocation) {
    b == a.(fallbackAction := b.fallbackAction)
  }

  predicate LikeRecord(a: RevokedLease, b: RevokedLease) {
    b == a.(fallbackAction := b.fallbackAction)
  }

  ghost predicate LikeMemory(a: map<string, RevokedLease>, b: map<string, RevokedLease>) {
    a.Keys == b.Keys && forall id :: id in a ==> LikeRecord(a[id], b[id])
  }

  ghost predicate LikeTables(a: Tables, b: Tables) {
    a.messages == b.messages && LikeMemory(a.leases, b.leases)
  }

  ghost predicate LikeGate(a: Instance, b: Instance) {
    a.cfg == b.cfg && LikeMemory(a.memory, b.memory)
  }

  predicate LikeCall(a: Call, b: Call) {
    || a == b
    || (a.Publishing? && b.Publishing? && a.gate == b.gate && a.lease == b.lease && SameButRequest(a.r, b.r))
  }

  /** The audit log names the requested action, and nothing else may differ. */
  predicate LikeEvent(a: GateEvent, b: GateEvent) {
    b == a.(requestedFallback := b.requestedFallback)
  }

  predicate LikeLog(a: seq<Logged>, b: seq<Logged>) {
    |a| == |b| && forall i :: 0 <= i < |a| ==> a[i].gate == b[i].gate && LikeEvent(a[i].event, b[i].event)
  }

  ghost predicate Like(s: System, t: System) {
    && s.rows == t.rows && s.lost == t.lost && LikeTables(s.tables, t.tables)
    && s.emissions == t.emissions && LikeLog(s.history, t.history)
    && s.gates.Keys == t.gates.Keys && (forall g :: g in s.gates ==> LikeGate(s.gates[g], t.gates[g]))
    && s.calls.Keys == t.calls.Keys && (forall id :: id in s.calls ==> LikeCall(s.calls[id], t.calls[id]))
  }

  /** Each revocation is signed in both runs or in neither. */
  ghost predicate LikeStep(s: System, a: Step, b: Step) {
    || a == b
    || (a.BeginRevoke? && b.BeginRevoke? && b == a.(r := b.r) && SameButRequest(a.r, b.r)
        && (a.g in s.gates ==>
            var env := s.gates[a.g].cfg.env;
            forall key :: env.revocationSigned(a.r, key) == env.revocationSigned(b.r, key)))
  }

  ghost predicate LikeSteps(s: System, a: seq<Step>, b: seq<Step>)
    decreases |a|
  {
    |a| == |b| && (a != [] ==> LikeStep(s, a[0], b[0]) && LikeSteps(Apply(s, a[0]), a[1..], b[1..]))
  }

  // ------------------------------------------------------------- one answer

  lemma ScreenIgnoresRequest(
    cfg: GateConfig, rows: set<Row>, m: map<string, RevokedLease>, n: map<string, RevokedLease>, c: Command,
    lease: Option<Lease>, auth: Verdict)
    requires LikeMemory(m, n)
    ensures ScreenAfter(cfg, rows, m, c, lease, auth) == ScreenAfter(cfg, rows, n, c, lease, auth)
  {
  }

  lemma RejectIgnoresRequest(
    cfg: GateConfig, m: map<string, RevokedLease>, n: map<string, RevokedLease>, c: Command, lease: Option<Lease>,
    reason: Reason, emit: bool)
    requires LikeMemory(m, n)
    ensures Reject(cfg, m, c, lease, reason, emit) == Reject(cfg, n, c, lease, reason, emit)
  {
    if lease.Some? && lease.value.leaseId in m {
      assert LikeRecord(m[lease.value.leaseId], n[lease.value.leaseId]);
    }
  }

  lemma FinishIgnoresRequest(
    cfg: GateConfig, rows: set<Row>, m: map<string, RevokedLease>, n: map<string, RevokedLease>, c: Command,
    lease: Lease, verdict: Verdict)
    requires LikeMemory(m, n)
    ensures Finish(cfg, rows, m, c, lease, verdict) == Finish(cfg, rows, n, c, lease, verdict)
  {
    if verdict.Valid? {
      var use := RememberAuthorized(rows, c, lease).1;
      if use.Invalid? { RejectIgnoresRequest(cfg, m, n, c, Some(lease), use.reason, false); }
    } else {
      RejectIgnoresRequest(cfg, m, n, c, Some(lease), verdict.reason, true);
      RejectIgnoresRequest(cfg, m, n, c, Some(lease), CommandReplayed, false);
    }
  }

  predicate LikeEvents(a: seq<GateEvent>, b: seq<GateEvent>) {
    |a| == |b| && forall i :: 0 <= i < |a| ==> LikeEvent(a[i], b[i])
  }

  lemma VerdictIgnoresRequest(cfg: GateConfig, a: Revocation, b: Revocation, l: Lease, now: int)
    requires SameButRequest(a, b)
    requires forall key :: cfg.env.revocationSigned(a, key) == cfg.env.revocationSigned(b, key)
    ensures RevocationVerdict(cfg, a, l, now) == RevocationVerdict(cfg, b, l, now)
  {
  }

  lemma PublishedAlike(cfg: GateConfig, a: Revocation, b: Revocation, l: Lease)
    requires SameButRequest(a, b)
    ensures LikeRecord(RevokedRecord(a, l), RevokedRecord(b, l))
    ensures Published(cfg, a, l).declared == Published(cfg, b, l).declared
    ensures LikeEvents(Published(cfg, a, l).events, Published(cfg, b, l).events)
  {
  }

  lemma RevokeIgnoresRequest(
    cfg: GateConfig, t: Tables, t': Tables, m: map<string, RevokedLease>, n: map<string, RevokedLease>,
    a: Revocation, b: Revocation, lease: Option<Lease>, now: int)
    requires LikeTables(t, t') && SameButRequest(a, b)
    requires forall key :: cfg.env.revocationSigned(a, key) == cfg.env.revocationSigned(b, key)
    ensures var (x, _, xo) := Revoke(cfg, t, m, a, lease, now);
      var (y, _, yo) := Revoke(cfg, t', n, b, lease, now);
      && LikeTables(x, y) && (xo.result.RevokedNow? <==> yo.result.RevokedNow?)
      && (!xo.result.RevokedNow? ==> xo.events == yo.events)
  {
    if lease.Some? {
      VerdictIgnoresRequest(cfg, a, b, lease.value, now);
      PublishedAlike(cfg, a, b, lease.value);
    }
  }

  // ------------------------------------------------------------- one step

  lemma LogsExtend(a: seq<Logged>, b: seq<Logged>, g: nat, more: seq<GateEvent>, more': seq<GateEvent>)
    requires LikeLog(a, b) && LikeEvents(more, more')
    ensures LikeLog(a + LogOf(g, more), b + LogOf(g, more'))
  {
  }

  lemma ScreenedAlike(s: System, t: System, a: Step, screened: Option<Output>)
    requires Like(s, t) && a.BeginEvaluate? && (screened.None? ==> a.lease.Some?)
    ensures Like(AfterScreen(s, a.id, a.g, a.c, a.lease, a.state, a.now, screened),
                 AfterScreen(t, a.id, a.g, a.c, a.lease, a.state, a.now, screened))
  {
    if screened.Some? { LogsExtend(s.history, t.history, a.g, screened.value.events, screened.value.events); }
  }

  lemma BeginEvaluateAlike(s: System, t: System, a: Step)
    requires Like(s, t) && a.BeginEvaluate?
    ensures Like(Apply(s, a), Apply(t, a))
  {
    if a.id !in s.calls && a.g in s.gates {
      var m, n := s.gates[a.g], t.gates[a.g];
      assert LikeGate(m, n);
      ScreenIgnoresRequest(m.cfg, s.rows, m.memory, n.memory, a.c, a.lease, Auth(m.cfg, a.c, a.now));
      ScreenedAlike(s, t, a, Screen(m.cfg, s.rows, m.memory, a.c, a.lease, a.now));
    }
  }

  lemma ValidateAlike(s: System, t: System, id: nat)
    requires Like(s, t)
    ensures Like(Apply(s, Validate(id)), Apply(t, Validate(id)))
  {
    if id in s.calls && s.calls[id].Screened? && s.calls[id].gate in s.gates {
      var k := s.calls[id];
      assert LikeCall(k, t.calls[id]);
      assert LikeGate(s.gates[k.gate], t.gates[k.gate]);
      var verdict := ValidateLease(s.gates[k.gate].cfg, k.lease, k.c, k.state, s.gates[k.gate].memory.Keys, k.now);
      var s' := Apply(s, Validate(id));
      assert s' == s.(calls := s.calls[id := Validated(k.gate, k.c, k.lease, verdict)]);
      assert Apply(t, Validate(id)) == t.(calls := t.calls[id := Validated(k.gate, k.c, k.lease, verdict)]);
    } else if id in s.calls {
      assert LikeCall(s.calls[id], t.calls[id]);
    }
  }

  lemma CommitAlike(s: System, t: System, id: nat)
    requires Like(s, t)
    ensures Like(Apply(s, Commit(id)), Apply(t, Commit(id)))
  {
    if id in s.calls && s.calls[id].Validated? && s.calls[id].gate in s.gates {
      var k := s.calls[id];
      assert LikeCall(k, t.calls[id]);
      var m, n := s.gates[k.gate], t.gates[k.gate];
      assert LikeGate(m, n);
      FinishIgnoresRequest(m.cfg, s.rows, m.memory, n.memory, k.c, k.lease, k.verdict);
      var out := Finish(m.cfg, s.rows, m.memory, k.c, k.lease, k.verdict).1;
      LogsExtend(s.history, t.history, k.gate, out.events, out.events);
    } else if id in s.calls {
      assert LikeCall(s.calls[id], t.calls[id]);
    }
  }

  lemma RevokedAlike(s: System, t: System, a: Step, b: Step, x: Tables, y: Tables, xo: RevokeOutput, yo: RevokeOutput)
    requires Like(s, t) && a.BeginRevoke? && LikeStep(s, a, b) && LikeTables(x, y)
    requires (xo.result.RevokedNow? ==> a.lease.Some?) && (xo.result.RevokedNow? <==> yo.result.RevokedNow?)
    requires !xo.result.RevokedNow? ==> xo.events == yo.events
    ensures Like(AfterRevoke(s, a.id, a.g, a.r, a.lease, x, xo), AfterRevoke(t, b.id, b.g, b.r, b.lease, y, yo))
  {
    if !xo.result.RevokedNow? { LogsExtend(s.history, t.history, a.g, xo.events, yo.events); }
  }

  lemma BeginRevokeAlike(s: System, t: System, a: Step, b: Step)
    requires Like(s, t) && a.BeginRevoke? && LikeStep(s, a, b)
    ensures Like(Apply(s, a), Apply(t, b))
  {
    if a.id !in s.calls && a.g in s.gates {
      var m, n := s.gates[a.g], t.gates[a.g];
      assert LikeGate(m, n);
      RevokeIgnoresRequest(m.cfg, s.tables, t.tables, m.memory, n.memory, a.r, b.r, a.lease, a.now);
      var (x, _, xo) := Revoke(m.cfg, s.tables, m.memory, a.r, a.lease, a.now);
      var (y, _, yo) := Revoke(n.cfg, t.tables, n.memory, b.r, b.lease, b.now);
      RevokedAlike(s, t, a, b, x, y, xo, yo);
    }
  }

  lemma MemoryAlike(m: map<string, RevokedLease>, n: map<string, RevokedLease>, x: RevokedLease, y: RevokedLease)
    requires LikeMemory(m, n) && LikeRecord(x, y)
    ensures LikeMemory(m[x.leaseId := x], n[y.leaseId := y])
  {
  }

  lemma AnnouncedAlike(s: System, t: System, id: nat, g: nat, x: RevokedLease, y: RevokedLease, xo: RevokeOutput,
                       yo: RevokeOutput)
    requires Like(s, t) && g in s.gates && LikeRecord(x, y) && xo.declared == yo.declared
    requires LikeEvents(xo.events, yo.events)
    ensures Like(AfterPublish(s, id, g, x, xo), AfterPublish(t, id, g, y, yo))
  {
    MemoryAlike(s.gates[g].memory, t.gates[g].memory, x, y);
    LogsExtend(s.history, t.history, g, xo.events, yo.events);
    var s', t' := AfterPublish(s, id, g, x, xo), AfterPublish(t, id, g, y, yo);
    assert LikeLog(s'.history, t'.history) && s'.emissions == t'.emissions;
    assert s'.calls.Keys == t'.calls.Keys && s'.gates.Keys == t'.gates.Keys;
    forall h | h in s'.gates ensures LikeGate(s'.gates[h], t'.gates[h]) {
      assert LikeGate(s.gates[h], t.gates[h]);
    }
    forall k | k in s'.calls ensures LikeCall(s'.calls[k], t'.calls[k]) {
      assert LikeCall(s.calls[k], t.calls[k]);
    }
  }

  lemma PublishAlike(s: System, t: System, id: nat)
    requires Like(s, t)
    ensures Like(Apply(s, Publish(id)), Apply(t, Publish(id)))
  {
    if id in s.calls && s.calls[id].Publishing? && s.calls[id].gate in s.gates {
      var k, l := s.calls[id], t.calls[id];
      assert LikeCall(k, l);
      assert LikeGate(s.gates[k.gate], t.gates[k.gate]);
      var cfg := s.gates[k.gate].cfg;
      PublishedAlike(cfg, k.r, l.r, k.lease);
      AnnouncedAlike(s, t, id, k.gate, RevokedRecord(k.r, k.lease), RevokedRecord(l.r, l.lease),
                     Published(cfg, k.r, k.lease), Published(cfg, l.r, l.lease));
    } else if id in s.calls {
      assert LikeCall(s.calls[id], t.calls[id]);
    }
  }

  lemma CrashedAlike(s: System, t: System, g: nat)
    requires Like(s, t)
    ensures Like(AfterCrash(s, g), AfterCrash(t, g))
  {
    assert forall id :: id in s.calls ==> LikeCall(s.calls[id], t.calls[id]);
  }

  lemma CommitAndCrashAlike(s: System, t: System, id: nat)
    requires Like(s, t)
    ensures Like(Apply(s, CommitAndCrash(id)), Apply(t, CommitAndCrash(id)))
  {
    if id in s.calls && s.calls[id].Validated? && s.calls[id].gate in s.gates {
      var k := s.calls[id];
      assert LikeCall(k, t.calls[id]);
      var m, n := s.gates[k.gate], t.gates[k.gate];
      assert LikeGate(m, n);
      FinishIgnoresRequest(m.cfg, s.rows, m.memory, n.memory, k.c, k.lease, k.verdict);
      var rows := Finish(m.cfg, s.rows, m.memory, k.c, k.lease, k.verdict).0;
      CrashedAlike(s.(rows := rows, lost := s.lost + (rows - s.rows)), t.(rows := rows, lost := t.lost + (rows - t.rows)),
                   k.gate);
    } else if id in s.calls {
      assert LikeCall(s.calls[id], t.calls[id]);
    }
  }

  lemma BootedAlike(s: System, t: System, g: nat, cfg: GateConfig)
    requires Like(s, t)
    ensures Like(AfterBoot(s, g, cfg), AfterBoot(t, g, cfg))
  {
    var s', t' := AfterBoot(s, g, cfg), AfterBoot(t, g, cfg);
    forall h | h in s'.gates ensures h in t'.gates && LikeGate(s'.gates[h], t'.gates[h]) {
      if h in s.gates { assert LikeGate(s.gates[h], t.gates[h]); }
    }
  }

  lemma SameStepAlike(s: System, t: System, a: Step)
    requires Like(s, t) && !a.BeginRevoke?
    ensures Like(Apply(s, a), Apply(t, a))
  {
    match a
    case BeginEvaluate(_, _, _, _, _, _) => BeginEvaluateAlike(s, t, a);
    case Validate(id) => ValidateAlike(s, t, id);
    case Commit(id) => CommitAlike(s, t, id);
    case Publish(id) => PublishAlike(s, t, id);
    case Crash(g) => CrashedAlike(s, t, g);
    case CommitAndCrash(id) => CommitAndCrashAlike(s, t, id);
    case Boot(g, cfg) => if g !in s.gates { BootedAlike(s, t, g, cfg); }
  }

  lemma StepAlike(s: System, t: System, a: Step, b: Step)
    requires Like(s, t) && LikeStep(s, a, b)
    ensures Like(Apply(s, a), Apply(t, b))
  {
    if a.BeginRevoke? { BeginRevokeAlike(s, t, a, b); } else { SameStepAlike(s, t, a); }
  }

  /**
    Runs alike but for the requested actions end alike: same consumed rows, same decisions in
    the same order, same declarations with the same actions.
   */
  lemma {:induction false} RequestedFallbackIgnored(s: System, t: System, a: seq<Step>, b: seq<Step>)
    requires Like(s, t) && LikeSteps(s, a, b)
    ensures Like(Run(s, a), Run(t, b))
    decreases |a|
  {
    if a != [] {
      StepAlike(s, t, a[0], b[0]);
      RequestedFallbackIgnored(Apply(s, a[0]), Apply(t, b[0]), a[1..], b[1..]);
    }
  }
}
