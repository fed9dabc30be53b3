/**
  The marker-file replay store of the edge verifier as a protocol of small I/O steps.

  Any number of callers share one store directory. A call creates one marker file per key
  with an exclusive create, writes and syncs every marker, syncs the directory, and on an
  error removes the markers it created. Each step may succeed or fail, calls interleave
  freely, and a caller may crash at any point.

  The state holds only what the file system holds: the set of existing marker names. That
  no rollback ever removes somebody else's marker is a theorem (`Inv`), not an assumption.
  Marker names come from `path`, the digest of a key; it is never assumed to be injective.
 */
module MarkerProtocol {

  /** `consume_nonces` takes a set of keys, `consume_nonce` a single one. */
  datatype Api = Keys | SingleKey

  datatype ConsumeResult = Consumed | Rejected(index: nat)

  datatype Phase =
    | Creating
    | Writing(next: nat)
    | OpeningDir
    | SyncingDir
    | RollingBack(next: nat, refused: ConsumeResult)
    | Done(result: ConsumeResult)
    | Crashed

  /** `created` lists the markers this call has created, in key order. */
  datatype Call = Call(api: Api, keys: seq<string>, created: seq<string>, phase: Phase)

  predicate RustSpace(c: char) {
    var n := c as int;
    9 <= n <= 13 || n == 32 || n == 0x85 || n == 0xA0 || n == 0x1680 || 0x2000 <= n <= 0x200A
    || n == 0x2028 || n == 0x2029 || n == 0x202F || n == 0x205F || n == 0x3000
  }

  predicate RustBlank(s: string) {
    forall i :: 0 <= i < |s| ==> RustSpace(s[i])
  }

  predicate ValidNonceText(s: string) {
    !RustBlank(s) && '\n' !in s && '\r' !in s
  }

  /** Malformed, or a repetition of an earlier key of the same set. */
  predicate Unusable(keys: seq<string>, i: nat)
    requires i < |keys|
  {
    !ValidNonceText(keys[i]) || keys[i] in keys[..i]
  }

  /** The first key of the set that cannot be used; the length when there is none. */
  function FirstUnusable(keys: seq<string>, from: nat := 0): (i: nat)
    requires from <= |keys|
    ensures from <= i <= |keys|
    ensures forall j :: from <= j < i ==> !Unusable(keys, j)
    ensures i < |keys| ==> Unusable(keys, i)
    decreases |keys| - from
  {
    if from == |keys| || Unusable(keys, from) then from else FirstUnusable(keys, from + 1)
  }

  function AfterCreates(keys: seq<string>, created: nat): Phase {
    if created < |keys| then Creating else if created == 0 then OpeningDir else Writing(0)
  }

  function Start(api: Api, keys: seq<string>): Call {
    var bad := FirstUnusable(keys);
    if bad < |keys| then Call(api, keys, [], Done(Rejected(bad)))
    else Call(api, keys, [], AfterCreates(keys, 0))
  }

  function Rollback(call: Call, refused: ConsumeResult): Call {
    call.(phase := if call.created == [] then Done(refused) else RollingBack(0, refused))
  }

  predicate Finished(call: Call) {
    call.phase.Done? || call.phase.Crashed?
  }

  ghost predicate WellFormed(path: string -> string, call: Call) {
    && |call.created| <= |call.keys|
    && (forall i :: 0 <= i < |call.created| ==> call.created[i] == path(call.keys[i]))
    && (forall i, j :: 0 <= i < j < |call.created| ==> call.created[i] != call.created[j])
    && (call.phase.Creating? ==> |call.created| < |call.keys|)
    && (call.phase.Writing? ==> call.phase.next < |call.created|)
    && (call.phase.RollingBack? ==> call.phase.next < |call.created| && call.phase.refused.Rejected?)
    && (call.phase.Writing? || call.phase.OpeningDir? || call.phase.SyncingDir? || call.phase == Done(Consumed)
        ==> |call.created| == |call.keys|)
  }

  /** One I/O operation of an unfinished call; `ok` says whether the operating system let it succeed. */
  function Io(path: string -> string, disk: set<string>, call: Call, ok: bool): (next: (set<string>, Call))
    requires call.phase.Creating? ==> |call.created| < |call.keys|
    requires call.phase.RollingBack? ==> call.phase.next < |call.created|
  {
    match call.phase
    case Creating =>
      var marker := path(call.keys[|call.created|]);
      if !ok then (disk, Rollback(call, Rejected(0)))
      else if marker in disk then (disk, Rollback(call, Rejected(|call.created|)))
      else
        var created := call.created + [marker];
        (disk + {marker}, call.(created := created, phase := AfterCreates(call.keys, |created|)))
    case Writing(i) =>
      if !ok then (disk, Rollback(call, Rejected(0)))
      else (disk, call.(phase := if i + 1 < |call.created| then Writing(i + 1) else OpeningDir))
    case OpeningDir =>
      if ok then (disk, call.(phase := SyncingDir))
      else if call.api.Keys? then (disk, call.(phase := Done(Rejected(0))))  // early return, no rollback
      else (disk, Rollback(call, Rejected(0)))
    case SyncingDir =>
      if ok then (disk, call.(phase := Done(Consumed)))
      else (disk, Rollback(call, Rejected(0)))
    case RollingBack(i, refused) =>
      var disk' := if ok then disk - {call.created[i]} else disk;  // a failed removal is ignored
      (disk', call.(phase := if i + 1 < |call.created| then RollingBack(i + 1, refused) else Done(refused)))
    case Done(_) => (disk, call)
    case Crashed => (disk, call)
  }

  // ------------------------------------------------------------- many callers

  datatype Store = Store(disk: set<string>, calls: map<nat, Call>)

  datatype Step =
    | Begin(id: nat, api: Api, keys: seq<string>)
    | Operate(id: nat, ok: bool)
    | Crash(id: nat)

  ghost predicate CallsWellFormed(path: string -> string, s: Store) {
    forall id :: id in s.calls ==> WellFormed(path, s.calls[id])
  }

  /** A step that is not enabled leaves the store as it is. */
  ghost function Apply(path: string -> string, s: Store, step: Step): Store
    requires CallsWellFormed(path, s)
  {
    match step
    case Begin(id, api, keys) =>
      if id in s.calls || (api.SingleKey? && |keys| != 1) then s
      else s.(calls := s.calls[id := Start(api, keys)])
    case Operate(id, ok) =>
      if id !in s.calls then s
      else
        var (disk, call) := Io(path, s.disk, s.calls[id], ok);
        Store(disk, s.calls[id := call])
    case Crash(id) =>
      if id !in s.calls || s.calls[id].phase.Done? then s
      else s.(calls := s.calls[id := s.calls[id].(phase := Crashed)])
  }

  /** The markers a call still answers for: all of them until it finishes, fewer while it rolls back. */
  ghost function Held(call: Call): set<string> {
    match call.phase
    case RollingBack(i, _) => set k | i <= k < |call.created| :: call.created[k]
    case Done(Rejected(_)) => {}
    case Crashed => {}
    case _ => set k | 0 <= k < |call.created| :: call.created[k]
  }

  /** Held markers exist on disk and belong to one call only. */
  ghost predicate Inv(path: string -> string, s: Store) {
    && CallsWellFormed(path, s)
    && (forall id :: id in s.calls ==> Held(s.calls[id]) <= s.disk)
    && (forall a, b :: a in s.calls && b in s.calls && a != b ==> Held(s.calls[a]) !! Held(s.calls[b]))
  }

  lemma StartHoldsNothing(path: string -> string, api: Api, keys: seq<string>)
    ensures WellFormed(path, Start(api, keys)) && Held(Start(api, keys)) == {}
  {
  }

  /** What one operation may change: a fresh marker appears and is held, or an own marker goes. */
  lemma IoHolds(path: string -> string, disk: set<string>, call: Call, ok: bool)
    requires WellFormed(path, call) && Held(call) <= disk
    ensures var (disk', call') := Io(path, disk, call, ok);
      && WellFormed(path, call')
      && Held(call') <= disk'
      && Held(call') <= Held(call) + (disk' - disk)
      && disk - disk' <= Held(call)
      && (call.phase.Done? ==> call' == call && disk' == disk)
  {
    var (disk', call') := Io(path, disk, call, ok);
    match call.phase
    case Creating =>
      var marker := path(call.keys[|call.created|]);
      if ok && marker !in disk {
        assert forall k :: 0 <= k < |call.created| ==> call.created[k] in Held(call);
      }
    case RollingBack(i, _) =>
      assert call.created[i] in Held(call);
    case _ =>
  }

  /** Replacing one call is harmless when it only gained fresh markers and only lost its own. */
  lemma ReplaceCall(path: string -> string, s: Store, id: nat, disk: set<string>, call: Call)
    requires Inv(path, s) && id in s.calls
    requires WellFormed(path, call) && Held(call) <= disk
    requires Held(call) <= Held(s.calls[id]) + (disk - s.disk)
    requires s.disk - disk <= Held(s.calls[id])
    ensures Inv(path, Store(disk, s.calls[id := call]))
  {
    var s' := Store(disk, s.calls[id := call]);
    forall other | other in s'.calls && other != id
      ensures Held(s'.calls[other]) <= s'.disk && Held(s'.calls[other]) !! Held(call)
    {
      assert Held(s.calls[other]) !! Held(s.calls[id]);
    }
  }

  lemma ApplyKeepsInv(path: string -> string, s: Store, step: Step)
    requires Inv(path, s)
    ensures Inv(path, Apply(path, s, step))
  {
    match step
    case Begin(id, api, keys) => StartHoldsNothing(path, api, keys);
    case Operate(id, ok) =>
      if id in s.calls {
        IoHolds(path, s.disk, s.calls[id], ok);
        var (disk, call) := Io(path, s.disk, s.calls[id], ok);
        ReplaceCall(path, s, id, disk, call);
      }
    case Crash(id) =>
      if id in s.calls && !s.calls[id].phase.Done? {
        ReplaceCall(path, s, id, s.disk, s.calls[id].(phase := Crashed));
      }
  }

  ghost function Run(path: string -> string, s: Store, steps: seq<Step>): (s': Store)
    requires Inv(path, s)
    ensures Inv(path, s')
    decreases |steps|
  {
    if steps == [] then s
    else
      ApplyKeepsInv(path, s, steps[0]);
      Run(path, Apply(path, s, steps[0]), steps[1..])
  }

  ghost predicate Succeeded(s: Store, id: nat, key: string) {
    id in s.calls && s.calls[id].phase == Done(Consumed) && key in s.calls[id].keys
  }

  lemma SuccessHoldsMarker(path: string -> string, s: Store, id: nat, key: string)
    requires CallsWellFormed(path, s) && Succeeded(s, id, key)
    ensures path(key) in Held(s.calls[id])
  {
    var call := s.calls[id];
    var k :| 0 <= k < |call.keys| && call.keys[k] == key;
    assert call.created[k] == path(key);
  }

  /**
    Marker exclusivity. Whatever is on the disk at the start, and however calls, I/O errors
    and crashes interleave, no key belongs to two calls that report success.
   */
  lemma MarkerExclusive(path: string -> string, disk: set<string>, steps: seq<Step>, a: nat, b: nat, key: string)
    requires Succeeded(Run(path, Store(disk, map[]), steps), a, key)
    requires Succeeded(Run(path, Store(disk, map[]), steps), b, key)
    ensures a == b
  {
    var s := Run(path, Store(disk, map[]), steps);
    SuccessHoldsMarker(path, s, a, key);
    SuccessHoldsMarker(path, s, b, key);
  }

  /** The markers of the start are all still there, and no call holds any of them. */
  ghost predicate Spares(disk: set<string>, s: Store) {
    disk <= s.disk && forall id :: id in s.calls ==> Held(s.calls[id]) !! disk
  }

  lemma ApplySpares(path: string -> string, disk: set<string>, s: Store, step: Step)
    requires Inv(path, s) && Spares(disk, s)
    ensures Spares(disk, Apply(path, s, step))
  {
    match step
    case Begin(id, api, keys) => StartHoldsNothing(path, api, keys);
    case Operate(id, ok) => if id in s.calls { IoHolds(path, s.disk, s.calls[id], ok); }
    case Crash(id) =>
  }

  lemma {:induction false} RunSpares(path: string -> string, disk: set<string>, s: Store, steps: seq<Step>)
    requires Inv(path, s) && Spares(disk, s)
    ensures Spares(disk, Run(path, s, steps))
    decreases |steps|
  {
    if steps != [] {
      ApplyKeepsInv(path, s, steps[0]);
      ApplySpares(path, disk, s, steps[0]);
      RunSpares(path, disk, Apply(path, s, steps[0]), steps[1..]);
    }
  }

  /** What was on the disk at the start stays there in every run, and no key of it is ever consumed. */
  lemma OriginalStays(path: string -> string, disk: set<string>, steps: seq<Step>, id: nat, key: string)
    ensures disk <= Run(path, Store(disk, map[]), steps).disk
    ensures Succeeded(Run(path, Store(disk, map[]), steps), id, key) ==>
            path(key) !in disk && path(key) in Run(path, Store(disk, map[]), steps).disk
  {
    RunSpares(path, disk, Store(disk, map[]), steps);
    var s := Run(path, Store(disk, map[]), steps);
    if Succeeded(s, id, key) { SuccessHoldsMarker(path, s, id, key); }
  }

  /** A reported success lasts: its markers stay on disk through every later step of anyone. */
  lemma {:induction false} SuccessIsPermanent(path: string -> string, s: Store, steps: seq<Step>, id: nat, key: string)
    requires Inv(path, s) && Succeeded(s, id, key)
    ensures Succeeded(Run(path, s, steps), id, key)
    ensures path(key) in Run(path, s, steps).disk
    decreases |steps|
  {
    if steps == [] {
      SuccessHoldsMarker(path, s, id, key);
    } else {
      ApplyKeepsInv(path, s, steps[0]);
      SuccessIsPermanent(path, Apply(path, s, steps[0]), steps[1..], id, key);
    }
  }

  // ------------------------------------------------------------- one call on its own

  /** An upper bound on the operations a call still performs. */
  ghost function Remaining(call: Call): nat
    requires call.phase.Creating? ==> |call.created| < |call.keys|
    requires call.phase.Writing? ==> call.phase.next < |call.created|
    requires call.phase.RollingBack? ==> call.phase.next < |call.created|
  {
    match call.phase
    case Creating => 3 * |call.keys| + 3 - |call.created|
    case Writing(i) => 2 * |call.created| + 2 - i
    case OpeningDir => |call.created| + 2
    case SyncingDir => |call.created| + 1
    case RollingBack(i, _) => |call.created| - i
    case Done(_) => 0
    case Crashed => 0
  }

  lemma IoProgress(path: string -> string, disk: set<string>, call: Call, ok: bool)
    requires WellFormed(path, call) && WellFormed(path, Io(path, disk, call, ok).1) && !Finished(call)
    ensures Remaining(Io(path, disk, call, ok).1) < Remaining(call)
  {
  }

  ghost predicate Live(path: string -> string, disk: set<string>, call: Call) {
    WellFormed(path, call) && Held(call) <= disk && !call.phase.Crashed?
  }

  /** Run one call to its end; `io(n)` decides the n-th operation. Yields the disk and the answer. */
  ghost function Drive(path: string -> string, disk: set<string>, call: Call, io: nat -> bool, n: nat)
    : (set<string>, ConsumeResult)
    requires Live(path, disk, call)
    decreases Remaining(call)
  {
    if call.phase.Done? then (disk, call.phase.result)
    else
      IoHolds(path, disk, call, io(n));
      IoProgress(path, disk, call, io(n));
      var (disk', call') := Io(path, disk, call, io(n));
      Drive(path, disk', call', io, n + 1)
  }

  /** Losing operations: a failed removal, and the early return that skips the rollback. */
  predicate Loses(call: Call, ok: bool) {
    && !ok
    && (call.phase.RollingBack? || (call.phase.OpeningDir? && call.api.Keys? && call.created != []))
  }

  ghost predicate NeverLoses(path: string -> string, disk: set<string>, call: Call, io: nat -> bool, n: nat)
    requires Live(path, disk, call)
    decreases Remaining(call)
  {
    call.phase.Done? ||
    (IoHolds(path, disk, call, io(n));
     IoProgress(path, disk, call, io(n));
     var (disk', call') := Io(path, disk, call, io(n));
     !Loses(call, io(n)) && NeverLoses(path, disk', call', io, n + 1))
  }

  /** Markers that were not on disk before this call began. */
  ghost predicate Own(disk0: set<string>, disk: set<string>, call: Call) {
    disk == disk0 + Held(call) && Held(call) !! disk0
  }

  lemma IoKeepsOwn(path: string -> string, disk0: set<string>, disk: set<string>, call: Call, ok: bool)
    requires Live(path, disk, call) && Own(disk0, disk, call) && !Loses(call, ok)
    ensures Own(disk0, Io(path, disk, call, ok).0, Io(path, disk, call, ok).1)
  {
    IoHolds(path, disk, call, ok);
  }

  lemma IoLoses(path: string -> string, disk0: set<string>, disk: set<string>, call: Call, ok: bool)
    requires Live(path, disk, call) && Own(disk0, disk, call) && Loses(call, ok)
    ensures exists marker ::
      && marker in Io(path, disk, call, ok).0 && marker !in disk0
      && marker !in Held(Io(path, disk, call, ok).1)
  {
    var k := if call.phase.RollingBack? then call.phase.next else 0;
    var marker := call.created[k];
    assert marker in Held(call);
    assert marker in Io(path, disk, call, ok).0 && marker !in disk0;
    assert marker !in Held(Io(path, disk, call, ok).1);
  }

  /** A marker that is no longer held is never removed by its own call. */
  lemma {:induction false} AbandonedStays(
    path: string -> string, disk: set<string>, call: Call, io: nat -> bool, n: nat, marker: string)
    requires Live(path, disk, call) && marker in disk && marker !in Held(call)
    ensures marker in Drive(path, disk, call, io, n).0
    decreases Remaining(call)
  {
    if !call.phase.Done? {
      IoHolds(path, disk, call, io(n));
      IoProgress(path, disk, call, io(n));
      var (disk', call') := Io(path, disk, call, io(n));
      AbandonedStays(path, disk', call', io, n + 1, marker);
    }
  }

  /**
    The store contract says that no key of a rejected set stays consumed. It holds exactly
    when no operation of the call is a losing one.
   */
  lemma {:induction false} RejectionLeavesNothing(
    path: string -> string, disk0: set<string>, disk: set<string>, call: Call, io: nat -> bool, n: nat)
    requires Live(path, disk, call) && Own(disk0, disk, call)
    requires Drive(path, disk, call, io, n).1.Rejected?
    ensures Drive(path, disk, call, io, n).0 == disk0 <==> NeverLoses(path, disk, call, io, n)
    decreases Remaining(call)
  {
    if !call.phase.Done? {
      IoHolds(path, disk, call, io(n));
      IoProgress(path, disk, call, io(n));
      var (disk', call') := Io(path, disk, call, io(n));
      if Loses(call, io(n)) {
        IoLoses(path, disk0, disk, call, io(n));
        var marker :| marker in disk' && marker !in disk0 && marker !in Held(call');
        AbandonedStays(path, disk', call', io, n + 1, marker);
      } else {
        IoKeepsOwn(path, disk0, disk, call, io(n));
        RejectionLeavesNothing(path, disk0, disk', call', io, n + 1);
      }
    }
  }

  /** A whole call, from any disk. */
  ghost function Consume(path: string -> string, disk: set<string>, api: Api, keys: seq<string>, io: nat -> bool)
    : (set<string>, ConsumeResult)
  {
    StartHoldsNothing(path, api, keys);
    Drive(path, disk, Start(api, keys), io, 0)
  }

  lemma RunFrom(path: string -> string, s: Store, step: Step, rest: seq<Step>)
    requires Inv(path, s)
    ensures Inv(path, Apply(path, s, step))
    ensures Run(path, s, [step] + rest) == Run(path, Apply(path, s, step), rest)
  {
    ApplyKeepsInv(path, s, step);
    assert ([step] + rest)[1..] == rest;
  }

  /** One operation of one call, as a step of the store. */
  lemma IoIsStep(path: string -> string, s: Store, id: nat, ok: bool)
    requires Inv(path, s) && id in s.calls && Live(path, s.disk, s.calls[id]) && !s.calls[id].phase.Done?
    ensures var (disk, call) := Io(path, s.disk, s.calls[id], ok);
      && Apply(path, s, Operate(id, ok)) == Store(disk, s.calls[id := call])
      && Live(path, disk, call) && Remaining(call) < Remaining(s.calls[id])
      && call.api == s.calls[id].api && call.keys == s.calls[id].keys
  {
    IoHolds(path, s.disk, s.calls[id], ok);
    IoProgress(path, s.disk, s.calls[id], ok);
  }

  /** A call driven to its end on its own is a run of the store: one step per operation. */
  lemma {:induction false} DriveIsRun(path: string -> string, s: Store, id: nat, io: nat -> bool, n: nat)
    returns (steps: seq<Step>)
    requires Inv(path, s) && id in s.calls && Live(path, s.disk, s.calls[id])
    ensures var (disk, result) := Drive(path, s.disk, s.calls[id], io, n);
      var s' := Run(path, s, steps);
      && id in s'.calls && s' == Store(disk, s.calls[id := s'.calls[id]])
      && s'.calls[id].api == s.calls[id].api && s'.calls[id].keys == s.calls[id].keys
      && s'.calls[id].phase == Done(result)
    decreases Remaining(s.calls[id])
  {
    var call := s.calls[id];
    if call.phase.Done? {
      steps := [];
      assert s.calls[id := call] == s.calls;
    } else {
      IoIsStep(path, s, id, io(n));
      var step := Operate(id, io(n));
      var s' := Apply(path, s, step);
      ApplyKeepsInv(path, s, step);
      var rest := DriveIsRun(path, s', id, io, n + 1);
      RunFrom(path, s, step, rest);
      steps := [step] + rest;
      var done := Run(path, s', rest).calls[id];
      assert s'.calls[id := done] == s.calls[id := done];
    }
  }

  /** A whole call, whatever its I/O does, is a run of the store with that call added. */
  lemma ConsumeIsRun(path: string -> string, s: Store, id: nat, api: Api, keys: seq<string>, io: nat -> bool)
    returns (steps: seq<Step>)
    requires Inv(path, s) && id !in s.calls && (api.SingleKey? ==> |keys| == 1)
    ensures var (disk, result) := Consume(path, s.disk, api, keys, io);
      var s' := Run(path, s, steps);
      && id in s'.calls && s' == Store(disk, s.calls[id := s'.calls[id]])
      && s'.calls[id].api == api && s'.calls[id].keys == keys && s'.calls[id].phase == Done(result)
  {
    StartHoldsNothing(path, api, keys);
    var begin := Begin(id, api, keys);
    ApplyKeepsInv(path, s, begin);
    var s' := Apply(path, s, begin);
    assert s' == s.(calls := s.calls[id := Start(api, keys)]);
    var rest := DriveIsRun(path, s', id, io, 0);
    RunFrom(path, s, begin, rest);
    steps := [begin] + rest;
    var done := Run(path, s', rest).calls[id];
    assert s'.calls[id := done] == s.calls[id := done];
  }

  lemma ContractKeptExactly(path: string -> string, disk: set<string>, api: Api, keys: seq<string>, io: nat -> bool)
    requires Consume(path, disk, api, keys, io).1.Rejected?
    ensures Live(path, disk, Start(api, keys))
    ensures Consume(path, disk, api, keys, io).0 == disk <==> NeverLoses(path, disk, Start(api, keys), io, 0)
  {
    StartHoldsNothing(path, api, keys);
    RejectionLeavesNothing(path, disk, disk, Start(api, keys), io, 0);
  }

  /** The early return does lose: the directory cannot be opened, the answer is a refusal, the marker stays. */
  lemma EarlyReturnLosesKey(path: string -> string)
    ensures var io := (n: nat) => n != 2;
      Consume(path, {}, Keys, ["k"], io) == ({path("k")}, Rejected(0))
  {
    var io := (n: nat) => n != 2;
    var call := Start(Keys, ["k"]);
    StartHoldsNothing(path, Keys, ["k"]);
    assert "k"[0] == 'k' && !RustSpace('k');
    assert FirstUnusable(["k"]) == 1;
    var c1 := Call(Keys, ["k"], [path("k")], Writing(0));
    assert call == Call(Keys, ["k"], [], Creating);
    assert [] + [path("k")] == [path("k")] && {} + {path("k")} == {path("k")};
    assert Io(path, {}, call, true) == ({path("k")}, c1);
    assert Io(path, {path("k")}, c1, true) == ({path("k")}, c1.(phase := OpeningDir));
    IoHolds(path, {}, call, true);
    IoHolds(path, {path("k")}, c1, true);
    calc {
      Drive(path, {}, call, io, 0);
      Drive(path, {path("k")}, c1, io, 1);
      Drive(path, {path("k")}, c1.(phase := OpeningDir), io, 2);
      ({path("k")}, Rejected(0));
    }
  }
}
