/**
  What one call to the marker store answers and leaves on the disk, under every I/O behaviour,
  told from the number of the first operation that fails: no protocol step is mentioned. And
  what a reported success means in a run of many callers.
 */
module MarkerOutcome {
  import opened MarkerProtocol
  import opened MarkerStore

  /** Creating the marker of key `c` fails, or finds it on the disk or among the call's own. */
  predicate Blocked(path: string -> string, disk: set<string>, keys: seq<string>, io: nat -> bool, c: nat)
    requires c < |keys|
  {
    !io(c) || path(keys[c]) in disk || exists j :: 0 <= j < c && path(keys[j]) == path(keys[c])
  }

  function FirstBlocked(
    path: string -> string, disk: set<string>, keys: seq<string>, io: nat -> bool, from: nat := 0): (c: nat)
    requires from <= |keys|
    ensures from <= c <= |keys|
    decreases |keys| - from
  {
    if from == |keys| || Blocked(path, disk, keys, io, from) then from else FirstBlocked(path, disk, keys, io, from + 1)
  }

  lemma {:induction false} FirstBlockedIsFirst(
    path: string -> string, disk: set<string>, keys: seq<string>, io: nat -> bool, from: nat)
    requires from <= |keys|
    ensures var c := FirstBlocked(path, disk, keys, io, from);
      && (forall j :: from <= j < c ==> !Blocked(path, disk, keys, io, j))
      && (c < |keys| ==> Blocked(path, disk, keys, io, c))
    decreases |keys| - from
  {
    if from < |keys| && !Blocked(path, disk, keys, io, from) {
      FirstBlockedIsFirst(path, disk, keys, io, from + 1);
    }
  }

  function FirstFailure(io: nat -> bool, from: nat, end: nat): (n: nat)
    requires from <= end
    ensures from <= n <= end
    ensures forall j :: from <= j < n ==> io(j)
    ensures n < end ==> !io(n)
    decreases end - from
  {
    if from == end || !io(from) then from else FirstFailure(io, from + 1, end)
  }

  /** The markers of the first `made` keys whose removal fails, when the removals start at operation `at`. */
  function Left(path: string -> string, keys: seq<string>, made: nat, io: nat -> bool, at: nat): set<string>
    requires made <= |keys|
  {
    set j: nat | j < made && !io(at + j) :: path(keys[j])
  }

  /** How a call ends whose markers are all there and whose first failing operation, if any, is `w`. */
  function WriteEnd(
    path: string -> string, disk0: set<string>, disk: set<string>, api: Api, keys: seq<string>, io: nat -> bool, w: nat)
    : (set<string>, ConsumeResult)
  {
    var n := |keys|;
    if w == 2 * n + 2 then (disk, Consumed)
    else if w == 2 * n && api.Keys? then (disk, Rejected(0))
    else (disk0 + Left(path, keys, n, io, w + 1), Rejected(0))
  }

  /** How a call on usable keys ends whose first marker that cannot be created, if any, is that of key `c`. */
  function CreateEnd(path: string -> string, disk: set<string>, api: Api, keys: seq<string>, io: nat -> bool, c: nat)
    : (set<string>, ConsumeResult)
    requires c <= |keys|
  {
    var n := |keys|;
    if c < n then (disk + Left(path, keys, c, io, c + 1), Rejected(if io(c) then c else 0))
    else WriteEnd(path, disk, disk + Markers(path, keys), api, keys, io, FirstFailure(io, n, 2 * n + 2))
  }

  /**
    The outcome of a call on `n` keys. Operations 0 to n - 1 create the markers, n to 2n - 1
    write and sync them, 2n opens the directory and 2n + 1 syncs it; removals follow the
    operation that failed, except after a key set could not open the directory.
   */
  function Outcome(path: string -> string, disk: set<string>, api: Api, keys: seq<string>, io: nat -> bool)
    : (set<string>, ConsumeResult)
  {
    var bad := FirstUnusable(keys);
    if bad < |keys| then (disk, Rejected(bad))
    else CreateEnd(path, disk, api, keys, io, FirstBlocked(path, disk, keys, io))
  }

  lemma DriveStep(path: string -> string, disk: set<string>, call: Call, io: nat -> bool, n: nat)
    requires Live(path, disk, call) && !call.phase.Done?
    ensures var (disk', call') := Io(path, disk, call, io(n));
      && Live(path, disk', call') && Remaining(call') < Remaining(call)
      && Drive(path, disk, call, io, n) == Drive(path, disk', call', io, n + 1)
  {
    IoHolds(path, disk, call, io(n));
    IoProgress(path, disk, call, io(n));
  }

  lemma DriveDone(path: string -> string, disk: set<string>, call: Call, io: nat -> bool, n: nat)
    requires Live(path, disk, call) && call.phase.Done?
    ensures Drive(path, disk, call, io, n) == (disk, call.phase.result)
  {
  }

  // ------------------------------------------------------------- rolling back

  /** The markers that a rollback standing at index `i` still removes. */
  function Removed(created: seq<string>, i: nat, io: nat -> bool, n: nat): set<string> {
    set j: nat | i <= j < |created| && io(n + j - i) :: created[j]
  }

  lemma RemovedStep(created: seq<string>, i: nat, io: nat -> bool, n: nat)
    requires i < |created|
    ensures Removed(created, i, io, n) ==
            (if io(n) then {created[i]} else {}) + Removed(created, i + 1, io, n + 1)
  {
    forall m ensures m in Removed(created, i, io, n) <==>
                     m in (if io(n) then {created[i]} else {}) + Removed(created, i + 1, io, n + 1)
    {
      if m in Removed(created, i, io, n) {
        var j: nat :| i <= j < |created| && io(n + j - i) && created[j] == m;
        if j > i { assert n + j - i == n + 1 + j - (i + 1); }
      }
      if m in Removed(created, i + 1, io, n + 1) {
        var j: nat :| i + 1 <= j < |created| && io(n + 1 + j - (i + 1)) && created[j] == m;
        assert n + j - i == n + 1 + j - (i + 1);
      }
    }
  }

  lemma {:induction false} RollbackRemoves(path: string -> string, disk: set<string>, call: Call, io: nat -> bool, n: nat)
    requires Live(path, disk, call) && call.phase.RollingBack?
    ensures Drive(path, disk, call, io, n) ==
            (disk - Removed(call.created, call.phase.next, io, n), call.phase.refused)
    decreases Remaining(call)
  {
    var i := call.phase.next;
    var (disk', call') := Io(path, disk, call, io(n));
    DriveStep(path, disk, call, io, n);
    RemovedStep(call.created, i, io, n);
    var later := Removed(call.created, i + 1, io, n + 1);
    assert disk - Removed(call.created, i, io, n) == disk' - later;
    if call'.phase.RollingBack? {
      RollbackRemoves(path, disk', call', io, n + 1);
    } else {
      DriveDone(path, disk', call', io, n + 1);
      assert later == {} && disk' - later == disk';
    }
  }

  /** What the call has created so far is on the disk, and was not there before. */
  ghost predicate Made(path: string -> string, disk0: set<string>, disk: set<string>, call: Call) {
    && WellFormed(path, call)
    && disk == disk0 + Markers(path, call.keys[..|call.created|])
    && forall j :: 0 <= j < |call.created| ==> call.created[j] !in disk0
  }

  lemma MadeIsLive(path: string -> string, disk0: set<string>, disk: set<string>, call: Call)
    requires Made(path, disk0, disk, call) && !call.phase.Crashed?
    ensures Live(path, disk, call)
  {
    forall m | m in Held(call) ensures m in disk {
      var k :| 0 <= k < |call.created| && call.created[k] == m;
      assert path(call.keys[..|call.created|][k]) == m;
    }
  }

  /** A marker of the call that its removals take away is none that stays. */
  lemma GoneOrLeft(path: string -> string, call: Call, io: nat -> bool, n: nat, m: string)
    requires WellFormed(path, call)
    ensures m in Markers(path, call.keys[..|call.created|]) <==>
            m in Removed(call.created, 0, io, n) || m in Left(path, call.keys, |call.created|, io, n)
    ensures m in Removed(call.created, 0, io, n) ==> m !in Left(path, call.keys, |call.created|, io, n)
  {
    var made := |call.created|;
    forall k: nat | k < made ensures call.created[k] == path(call.keys[k]) == path(call.keys[..made][k]) {}
    if k: nat :| k < made && call.created[k] == m {
      assert io(n + k - 0) || !io(n + k);
    }
  }

  lemma LeftAfterRemoval(
    path: string -> string, disk0: set<string>, disk: set<string>, call: Call, io: nat -> bool, n: nat)
    requires Made(path, disk0, disk, call)
    ensures disk - Removed(call.created, 0, io, n) == disk0 + Left(path, call.keys, |call.created|, io, n)
  {
    var gone, left := Removed(call.created, 0, io, n), Left(path, call.keys, |call.created|, io, n);
    forall m ensures m in disk - gone <==> m in disk0 + left {
      GoneOrLeft(path, call, io, n, m);
    }
  }

  /** A refusal after `made` markers. */
  lemma RefusalLeaves(
    path: string -> string, disk0: set<string>, disk: set<string>, call: Call, refused: ConsumeResult, io: nat -> bool,
    n: nat)
    requires Made(path, disk0, disk, call) && refused.Rejected?
    ensures Live(path, disk, Rollback(call, refused))
    ensures Drive(path, disk, Rollback(call, refused), io, n) ==
            (disk0 + Left(path, call.keys, |call.created|, io, n), refused)
  {
    var back := Rollback(call, refused);
    assert Made(path, disk0, disk, back);
    MadeIsLive(path, disk0, disk, back);
    LeftAfterRemoval(path, disk0, disk, back, io, n);
    if back.phase.RollingBack? {
      RollbackRemoves(path, disk, back, io, n);
    } else {
      DriveDone(path, disk, back, io, n);
      assert Removed(back.created, 0, io, n) == {} && disk - {} == disk;
    }
  }

  // ------------------------------------------------------------- creating and writing

  /** Which operation an unfinished call that has not failed so far performs next. */
  function Position(call: Call): nat
    requires call.phase.Creating? || call.phase.Writing? || call.phase.OpeningDir? || call.phase.SyncingDir?
  {
    match call.phase
    case Creating => |call.created|
    case Writing(i) => |call.keys| + i
    case OpeningDir => 2 * |call.keys|
    case SyncingDir => 2 * |call.keys| + 1
  }

  /** A write or a directory operation that fails. */
  lemma WriteFails(path: string -> string, disk0: set<string>, disk: set<string>, call: Call, io: nat -> bool, p: nat)
    requires Made(path, disk0, disk, call) && Live(path, disk, call) && !io(p) && |call.created| == |call.keys|
    requires call.phase.Writing? || call.phase.OpeningDir? || call.phase.SyncingDir?
    ensures Drive(path, disk, call, io, p) ==
            (if call.phase.OpeningDir? && call.api.Keys? then disk
             else disk0 + Left(path, call.keys, |call.keys|, io, p + 1), Rejected(0))
  {
    DriveStep(path, disk, call, io, p);
    var (disk', call') := Io(path, disk, call, false);
    if call.phase.OpeningDir? && call.api.Keys? {
      DriveDone(path, disk', call', io, p + 1);
    } else {
      RefusalLeaves(path, disk0, disk, call, Rejected(0), io, p + 1);
    }
  }

  /** A write or the opening of the directory that succeeds. */
  lemma WriteGoesOn(path: string -> string, disk0: set<string>, disk: set<string>, call: Call, io: nat -> bool, p: nat)
    returns (next: Call)
    requires Made(path, disk0, disk, call) && Live(path, disk, call) && |call.created| == |call.keys|
    requires (call.phase.Writing? || call.phase.OpeningDir?) && p == Position(call) && io(p)
    ensures next == call.(phase := next.phase) && Made(path, disk0, disk, next) && Live(path, disk, next)
    ensures next.phase.Writing? || next.phase.OpeningDir? || next.phase.SyncingDir?
    ensures Position(next) == p + 1 && Remaining(next) < Remaining(call) && p + 1 < 2 * |call.keys| + 2
    ensures Drive(path, disk, call, io, p) == Drive(path, disk, next, io, p + 1)
  {
    DriveStep(path, disk, call, io, p);
    next := Io(path, disk, call, true).1;
  }

  lemma LastSync(path: string -> string, disk: set<string>, call: Call, io: nat -> bool, p: nat)
    requires Live(path, disk, call) && call.phase.SyncingDir? && io(p)
    ensures Drive(path, disk, call, io, p) == (disk, Consumed)
  {
    DriveStep(path, disk, call, io, p);
    DriveDone(path, disk, call.(phase := Done(Consumed)), io, p + 1);
  }

  lemma {:induction false} WritesOutcome(
    path: string -> string, disk0: set<string>, disk: set<string>, call: Call, io: nat -> bool)
    requires Made(path, disk0, disk, call) && Live(path, disk, call) && |call.created| == |call.keys|
    requires call.phase.Writing? || call.phase.OpeningDir? || call.phase.SyncingDir?
    ensures Position(call) < 2 * |call.keys| + 2
    ensures Drive(path, disk, call, io, Position(call)) ==
            WriteEnd(path, disk0, disk, call.api, call.keys, io, FirstFailure(io, Position(call), 2 * |call.keys| + 2))
    decreases Remaining(call)
  {
    var p := Position(call);
    if !io(p) {
      WriteFails(path, disk0, disk, call, io, p);
    } else if call.phase.SyncingDir? {
      LastSync(path, disk, call, io, p);
    } else {
      var next := WriteGoesOn(path, disk0, disk, call, io, p);
      WritesOutcome(path, disk0, disk, next, io);
    }
  }

  lemma MadeGrows(path: string -> string, disk0: set<string>, disk: set<string>, call: Call)
    requires Made(path, disk0, disk, call) && Live(path, disk, call) && call.phase.Creating?
    requires path(call.keys[|call.created|]) !in disk
    ensures var (disk', call') := Io(path, disk, call, true);
      Made(path, disk0, disk', call') && Live(path, disk', call') && |call'.created| == |call.created| + 1
  {
    var made := |call.created|;
    var (disk', call') := Io(path, disk, call, true);
    IoHolds(path, disk, call, true);
    var before, after := call.keys[..made], call.keys[..made + 1];
    forall m ensures m in Markers(path, after) <==> m in Markers(path, before) + {path(call.keys[made])} {
      if m in Markers(path, after) {
        var k :| 0 <= k < |after| && path(after[k]) == m;
        if k < made { assert before[k] == after[k]; }
      }
      if m in Markers(path, before) {
        var k :| 0 <= k < |before| && path(before[k]) == m;
        assert after[k] == before[k];
      }
      assert after[made] == call.keys[made];
    }
  }

  lemma BlockedAtCreate(path: string -> string, disk0: set<string>, disk: set<string>, call: Call, io: nat -> bool)
    requires Made(path, disk0, disk, call) && call.phase.Creating?
    ensures var c := |call.created|;
      Blocked(path, disk0, call.keys, io, c) <==> !io(c) || path(call.keys[c]) in disk
  {
    var c := |call.created|;
    var made := call.keys[..c];
    if path(call.keys[c]) in disk && path(call.keys[c]) !in disk0 {
      var k :| 0 <= k < |made| && path(made[k]) == path(call.keys[c]);
      assert path(call.keys[k]) == path(call.keys[c]);
    }
    if j :| 0 <= j < c && path(call.keys[j]) == path(call.keys[c]) {
      assert made[j] == call.keys[j];
    }
  }

  lemma CreateBlocked(path: string -> string, disk0: set<string>, disk: set<string>, call: Call, io: nat -> bool, c: nat)
    requires Made(path, disk0, disk, call) && Live(path, disk, call) && call.phase.Creating? && c == |call.created|
    requires !io(c) || path(call.keys[c]) in disk
    ensures Drive(path, disk, call, io, c) ==
            (disk0 + Left(path, call.keys, c, io, c + 1), Rejected(if io(c) then c else 0))
  {
    DriveStep(path, disk, call, io, c);
    RefusalLeaves(path, disk0, disk, call, Rejected(if io(c) then c else 0), io, c + 1);
  }

  lemma CreateGoesOn(path: string -> string, disk0: set<string>, disk: set<string>, call: Call, io: nat -> bool, c: nat)
    returns (disk': set<string>, next: Call)
    requires Made(path, disk0, disk, call) && Live(path, disk, call) && call.phase.Creating? && c == |call.created|
    requires io(c) && path(call.keys[c]) !in disk
    ensures Made(path, disk0, disk', next) && Live(path, disk', next) && Remaining(next) < Remaining(call)
    ensures next.api == call.api && next.keys == call.keys && |next.created| == c + 1
    ensures next.phase == AfterCreates(call.keys, c + 1)
    ensures Drive(path, disk, call, io, c) == Drive(path, disk', next, io, c + 1)
  {
    DriveStep(path, disk, call, io, c);
    MadeGrows(path, disk0, disk, call);
    disk', next := Io(path, disk, call, true).0, Io(path, disk, call, true).1;
  }

  /** All markers are there. */
  lemma AllCreated(path: string -> string, disk0: set<string>, disk: set<string>, call: Call, io: nat -> bool)
    requires Made(path, disk0, disk, call) && Live(path, disk, call) && |call.created| == |call.keys|
    requires call.phase == AfterCreates(call.keys, |call.created|)
    ensures disk == disk0 + Markers(path, call.keys) && Position(call) == |call.keys|
    ensures Drive(path, disk, call, io, |call.keys|) ==
            WriteEnd(path, disk0, disk, call.api, call.keys, io, FirstFailure(io, |call.keys|, 2 * |call.keys| + 2))
  {
    assert call.keys[..|call.created|] == call.keys;
    WritesOutcome(path, disk0, disk, call, io);
  }

  lemma {:induction false} CreatesOutcome(
    path: string -> string, disk0: set<string>, disk: set<string>, call: Call, io: nat -> bool)
    requires Made(path, disk0, disk, call) && Live(path, disk, call)
    requires call.phase == AfterCreates(call.keys, |call.created|)
    ensures var c := |call.created|;
      Drive(path, disk, call, io, c) ==
      CreateEnd(path, disk0, call.api, call.keys, io, FirstBlocked(path, disk0, call.keys, io, c))
    decreases Remaining(call)
  {
    var c := |call.created|;
    if c == |call.keys| {
      AllCreated(path, disk0, disk, call, io);
    } else {
      BlockedAtCreate(path, disk0, disk, call, io);
      if Blocked(path, disk0, call.keys, io, c) {
        CreateBlocked(path, disk0, disk, call, io, c);
      } else {
        var disk', next := CreateGoesOn(path, disk0, disk, call, io, c);
        CreatesOutcome(path, disk0, disk', next, io);
      }
    }
  }

  /** Every call, whatever its I/O does, ends as `Outcome` says: answer and disk. */
  lemma ConsumeOutcome(path: string -> string, disk: set<string>, api: Api, keys: seq<string>, io: nat -> bool)
    ensures Consume(path, disk, api, keys, io) == Outcome(path, disk, api, keys, io)
  {
    StartHoldsNothing(path, api, keys);
    var call := Start(api, keys);
    if FirstUnusable(keys) == |keys| {
      assert Markers(path, keys[..0]) == {};
      CreatesOutcome(path, disk, disk, call, io);
    }
  }

  /** A key that can be used: it has a character that is no space, and no line break. */
  predicate Usable(key: string) {
    && (exists i :: 0 <= i < |key| && !RustSpace(key[i]))
    && (forall i :: 0 <= i < |key| ==> key[i] != '\n' && key[i] != '\r')
  }

  predicate AllUsable(keys: seq<string>) {
    && (forall i :: 0 <= i < |keys| ==> Usable(keys[i]))
    && (forall i, j :: 0 <= i < j < |keys| ==> keys[i] != keys[j])
  }

  lemma NoneUnusable(keys: seq<string>)
    ensures FirstUnusable(keys) == |keys| <==> AllUsable(keys)
  {
    forall i: nat | i < |keys|
      ensures Unusable(keys, i) <==> !Usable(keys[i]) || exists j :: 0 <= j < i && keys[j] == keys[i]
    {
      if keys[i] in keys[..i] {
        var j :| 0 <= j < i && keys[..i][j] == keys[i];
        assert keys[j] == keys[i];
      }
      if j :| 0 <= j < i && keys[j] == keys[i] {
        assert keys[..i][j] == keys[i];
      }
    }
  }

  /** Markers that are new and pairwise different. */
  predicate AllNew(path: string -> string, disk: set<string>, keys: seq<string>) {
    && (forall i :: 0 <= i < |keys| ==> path(keys[i]) !in disk)
    && (forall i, j :: 0 <= i < j < |keys| ==> path(keys[i]) != path(keys[j]))
  }

  /**
    When a call reports success: every key usable, every marker new, and every one of its
    2n + 2 operations successful. A single key and a set of keys do not differ in this.
   */
  lemma ConsumedExactly(path: string -> string, disk: set<string>, api: Api, keys: seq<string>, io: nat -> bool)
    ensures Consume(path, disk, api, keys, io).1.Consumed? <==>
            AllUsable(keys) && AllNew(path, disk, keys) && forall n: nat :: n < 2 * |keys| + 2 ==> io(n)
  {
    ConsumeOutcome(path, disk, api, keys, io);
    NoneUnusable(keys);
    FirstBlockedIsFirst(path, disk, keys, io, 0);
    var c, w := FirstBlocked(path, disk, keys, io), FirstFailure(io, |keys|, 2 * |keys| + 2);
    if c < |keys| {
      assert Blocked(path, disk, keys, io, c);
    } else {
      forall i: nat | i < |keys| ensures io(i) && path(keys[i]) !in disk { assert !Blocked(path, disk, keys, io, i); }
      forall i: nat, j: nat | i < j < |keys| ensures path(keys[i]) != path(keys[j]) {
        assert !Blocked(path, disk, keys, io, j);
      }
    }
  }

  // ------------------------------------------------------------- success in a run

  /** Whether call `id` has begun after the step. */
  predicate Begun(before: bool, step: Step, id: nat) {
    before || (step.Begin? && step.id == id && (step.api.Keys? || |step.keys| == 1))
  }

  /** What the step adds to the operations of call `id`. */
  function Performed(begun: bool, step: Step, id: nat): seq<bool> {
    if begun && step.Operate? && step.id == id then [step.ok] else []
  }

  /** The outcomes of the operations of call `id`, in order, from its beginning on. */
  function Operations(begun: bool, steps: seq<Step>, id: nat): seq<bool>
    decreases |steps|
  {
    if steps == [] then []
    else Performed(begun, steps[0], id) + Operations(Begun(begun, steps[0], id), steps[1..], id)
  }

  predicate AllSucceed(flags: seq<bool>, count: nat) {
    |flags| >= count && forall n :: 0 <= n < count ==> flags[n]
  }

  /** As long as a call has not failed, its operations so far are as many as its position says, all successful. */
  ghost predicate OnTrack(s: Store, id: nat, flags: seq<bool>) {
    id in s.calls ==>
      var call := s.calls[id];
      match call.phase
      case Done(Consumed) => AllSucceed(flags, 2 * |call.keys| + 2)
      case Done(_) => true
      case RollingBack(_, _) => true
      case Crashed => true
      case _ => |flags| == Position(call) && AllSucceed(flags, Position(call))
  }

  lemma OperateOnTrack(path: string -> string, s: Store, id: nat, ok: bool, flags: seq<bool>)
    requires CallsWellFormed(path, s) && id in s.calls && OnTrack(s, id, flags)
    ensures OnTrack(Apply(path, s, Operate(id, ok)), id, flags + [ok])
  {
    var call := s.calls[id];
    assert WellFormed(path, call);
    if call.phase.RollingBack? { assert call.phase.refused.Rejected?; }
  }

  lemma StepOnTrack(path: string -> string, s: Store, step: Step, id: nat, flags: seq<bool>)
    requires CallsWellFormed(path, s) && OnTrack(s, id, flags) && (id !in s.calls ==> flags == [])
    ensures var s', flags' := Apply(path, s, step), flags + Performed(id in s.calls, step, id);
      && OnTrack(s', id, flags') && (id !in s'.calls ==> flags' == [])
      && (id in s'.calls <==> Begun(id in s.calls, step, id))
  {
    if step.Operate? && step.id == id && id in s.calls {
      OperateOnTrack(path, s, id, step.ok, flags);
    } else {
      assert flags + [] == flags;
    }
  }

  lemma {:induction false} RunOnTrack(path: string -> string, s: Store, steps: seq<Step>, id: nat, flags: seq<bool>)
    requires Inv(path, s) && OnTrack(s, id, flags) && (id !in s.calls ==> flags == [])
    ensures OnTrack(Run(path, s, steps), id, flags + Operations(id in s.calls, steps, id))
    decreases |steps|
  {
    if steps == [] {
      assert flags + [] == flags;
    } else {
      var s', more := Apply(path, s, steps[0]), Performed(id in s.calls, steps[0], id);
      ApplyKeepsInv(path, s, steps[0]);
      StepOnTrack(path, s, steps[0], id, flags);
      RunOnTrack(path, s', steps[1..], id, flags + more);
      var rest := Operations(id in s'.calls, steps[1..], id);
      assert flags + more + rest == flags + (more + rest);
    }
  }

  /** In every run, a call that reports success has had 2n + 2 operations, and all of them succeeded. */
  lemma SuccessNeedsEveryOperation(path: string -> string, disk: set<string>, steps: seq<Step>, id: nat)
    requires var s := Run(path, Store(disk, map[]), steps);
      id in s.calls && s.calls[id].phase == Done(Consumed)
    ensures var s := Run(path, Store(disk, map[]), steps);
      AllSucceed(Operations(false, steps, id), 2 * |s.calls[id].keys| + 2)
  {
    RunOnTrack(path, Store(disk, map[]), steps, id, []);
    assert [] + Operations(false, steps, id) == Operations(false, steps, id);
  }
}
