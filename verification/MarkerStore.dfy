/**
  The marker-file replay store as the verifier uses it: `FileReplayCache` with its loops,
  proved to carry out exactly the protocol of `MarkerProtocol`, and what a call answers
  when no I/O operation fails.
 */
module MarkerStore {
  import opened MarkerProtocol

  ghost predicate Injective(path: string -> string) {
    forall a, b :: path(a) == path(b) ==> a == b
  }

  /** The first key whose marker is already there; the length when there is none. */
  function FirstPresent(path: string -> string, disk: set<string>, keys: seq<string>, from: nat := 0): (i: nat)
    requires from <= |keys|
    ensures from <= i <= |keys|
    ensures forall j :: from <= j < i ==> path(keys[j]) !in disk
    ensures i < |keys| ==> path(keys[i]) in disk
    decreases |keys| - from
  {
    if from == |keys| || path(keys[from]) in disk then from else FirstPresent(path, disk, keys, from + 1)
  }

  function Markers(path: string -> string, keys: seq<string>): (markers: set<string>) {
    set i | 0 <= i < |keys| :: path(keys[i])
  }

  function FaultFree(n: nat): bool { true }

  /** The answer of a fault-free call: the least unusable index, else the least present one. */
  function Answer(path: string -> string, disk: set<string>, keys: seq<string>): ConsumeResult {
    if FirstUnusable(keys) < |keys| then Rejected(FirstUnusable(keys))
    else if FirstPresent(path, disk, keys) < |keys| then Rejected(FirstPresent(path, disk, keys))
    else Consumed
  }

  /** With every operation succeeding, a set of created markers ends in success. */
  lemma {:induction false} WritesSucceed(path: string -> string, disk: set<string>, call: Call, n: nat)
    requires Live(path, disk, call)
    requires call.phase.Writing? || call.phase.OpeningDir? || call.phase.SyncingDir? || call.phase == Done(Consumed)
    ensures Drive(path, disk, call, FaultFree, n) == (disk, Consumed)
    decreases Remaining(call)
  {
    if !call.phase.Done? {
      IoHolds(path, disk, call, true);
      IoProgress(path, disk, call, true);
      WritesSucceed(path, Io(path, disk, call, true).0, Io(path, disk, call, true).1, n + 1);
    }
  }

  /** With every removal succeeding, a rollback restores the disk. */
  lemma {:induction false} RollbackRestores(
    path: string -> string, disk0: set<string>, disk: set<string>, call: Call, n: nat, refused: ConsumeResult)
    requires Live(path, disk, call) && Own(disk0, disk, call) && refused.Rejected?
    requires call.phase == Done(refused) || (call.phase.RollingBack? && call.phase.refused == refused)
    ensures Drive(path, disk, call, FaultFree, n) == (disk0, refused)
    decreases Remaining(call)
  {
    if call.phase.Done? {
      assert disk == disk0;
    } else {
      IoHolds(path, disk, call, true);
      IoProgress(path, disk, call, true);
      IoKeepsOwn(path, disk0, disk, call, true);
      RollbackRestores(path, disk0, Io(path, disk, call, true).0, Io(path, disk, call, true).1, n + 1, refused);
    }
  }

  lemma CreatedAreHeld(path: string -> string, call: Call)
    requires WellFormed(path, call) && (call.phase.Creating? || call.phase.Writing? || call.phase.OpeningDir?)
    ensures Held(call) == Markers(path, call.keys[..|call.created|])
  {
    var made := call.keys[..|call.created|];
    forall m ensures m in Held(call) <==> m in Markers(path, made) {
      if m in Held(call) {
        var k :| 0 <= k < |call.created| && call.created[k] == m;
        assert path(made[k]) == m;
      }
      if m in Markers(path, made) {
        var k :| 0 <= k < |made| && path(made[k]) == m;
        assert call.created[k] == m;
      }
    }
  }

  /** Distinct keys have distinct markers, so a call never trips over its own. */
  lemma NextMarkerNotHeld(path: string -> string, call: Call)
    requires Injective(path) && WellFormed(path, call) && call.phase.Creating?
    requires FirstUnusable(call.keys) == |call.keys|
    ensures path(call.keys[|call.created|]) !in Held(call)
  {
    var i := |call.created|;
    assert !Unusable(call.keys, i);
    forall k | 0 <= k < i ensures call.created[k] != path(call.keys[i]) {
      assert call.keys[k] in call.keys[..i];
    }
  }

  lemma {:induction false} CreatesDecide(path: string -> string, disk0: set<string>, disk: set<string>, call: Call, n: nat)
    requires Injective(path) && Live(path, disk, call) && Own(disk0, disk, call)
    requires call.api.Keys? && FirstUnusable(call.keys) == |call.keys|
    requires call.phase == AfterCreates(call.keys, |call.created|)
    requires forall j :: 0 <= j < |call.created| ==> path(call.keys[j]) !in disk0
    ensures Drive(path, disk, call, FaultFree, n) ==
            if FirstPresent(path, disk0, call.keys, |call.created|) < |call.keys|
            then (disk0, Rejected(FirstPresent(path, disk0, call.keys, |call.created|)))
            else (disk0 + Markers(path, call.keys), Consumed)
    decreases Remaining(call)
  {
    if !call.phase.Creating? {
      assert call.keys[..|call.created|] == call.keys;
      CreatedAreHeld(path, call);
      WritesSucceed(path, disk, call, n);
    } else {
      var i := |call.created|;
      var marker := path(call.keys[i]);
      var (disk', call') := Io(path, disk, call, true);
      IoHolds(path, disk, call, true);
      IoProgress(path, disk, call, true);
      IoKeepsOwn(path, disk0, disk, call, true);
      NextMarkerNotHeld(path, call);
      if marker in disk {
        RollbackRestores(path, disk0, disk', call', n + 1, Rejected(i));
      } else {
        CreatesDecide(path, disk0, disk', call', n + 1);
      }
    }
  }

  /**
    A fault-free call: a rejection names the least unusable key, else the least key already
    present, and leaves the disk alone; otherwise the markers of all keys are added.
   */
  lemma FaultFreeConsume(path: string -> string, disk: set<string>, keys: seq<string>)
    requires Injective(path)
    ensures Consume(path, disk, Keys, keys, FaultFree) ==
            (if Answer(path, disk, keys).Consumed? then disk + Markers(path, keys) else disk, Answer(path, disk, keys))
  {
    StartHoldsNothing(path, Keys, keys);
    if FirstUnusable(keys) == |keys| {
      CreatesDecide(path, disk, disk, Start(Keys, keys), 0);
    }
  }

  function SingleMarker(path: string -> string, nonce: string, phase: Phase): Call {
    Call(SingleKey, [nonce], [path(nonce)], phase)
  }

  lemma SingleRollback(path: string -> string, disk: set<string>, nonce: string, io: nat -> bool, n: nat)
    requires path(nonce) in disk
    ensures Live(path, disk, SingleMarker(path, nonce, RollingBack(0, Rejected(0))))
    ensures Drive(path, disk, SingleMarker(path, nonce, RollingBack(0, Rejected(0))), io, n) ==
            (if io(n) then disk - {path(nonce)} else disk, Rejected(0))
  {
    var call := SingleMarker(path, nonce, RollingBack(0, Rejected(0)));
    IoHolds(path, disk, call, io(n));
    IoProgress(path, disk, call, io(n));
  }

  /** The rest of a single-key call after its marker exists. */
  lemma AfterSingleCreate(path: string -> string, disk: set<string>, nonce: string, io: nat -> bool)
    requires path(nonce) in disk
    ensures Live(path, disk, SingleMarker(path, nonce, Writing(0)))
    ensures Drive(path, disk, SingleMarker(path, nonce, Writing(0)), io, 1) ==
            if io(1) && io(2) && io(3) then (disk, Consumed)
            else (if io(if !io(1) then 2 else if !io(2) then 3 else 4) then disk - {path(nonce)} else disk, Rejected(0))
  {
    var writing := SingleMarker(path, nonce, Writing(0));
    var opening := SingleMarker(path, nonce, OpeningDir);
    var syncing := SingleMarker(path, nonce, SyncingDir);
    SingleRollback(path, disk, nonce, io, 2);
    SingleRollback(path, disk, nonce, io, 3);
    SingleRollback(path, disk, nonce, io, 4);
    IoHolds(path, disk, writing, io(1));
    IoHolds(path, disk, opening, io(2));
    IoHolds(path, disk, syncing, io(3));
    if io(1) {
      assert Drive(path, disk, writing, io, 1) == Drive(path, disk, opening, io, 2);
      if io(2) {
        assert Drive(path, disk, opening, io, 2) == Drive(path, disk, syncing, io, 3);
      }
    }
  }

  /** The directory of marker files, with the two commit operations. */
  class FileReplayCache {
    const path: string -> string
    const storeId: string
    var disk: set<string>

    constructor (storeId: string, path: string -> string, existing: set<string>)
      ensures this.path == path && this.storeId == storeId && disk == existing
    {
      this.path, this.storeId := path, storeId;
      disk := existing;
    }

    /** Durable and shared as soon as the store directory has a name. */
    predicate Durable() {
      !RustBlank(storeId)
    }

    /** Remove markers `created[from..]` in order; a failed removal is ignored. */
    method RemoveMarkers(call: Call, io: nat -> bool, n: nat)
      requires Live(path, disk, call) && call.phase.RollingBack? && call.phase.next == 0
      modifies this`disk
      ensures (disk, call.phase.refused) == Drive(path, old(disk), call, io, n)
    {
      ghost var now := call;
      for i := 0 to |call.created|
        invariant now.created == call.created
        invariant now.phase == if i < |call.created| then RollingBack(i, call.phase.refused) else Done(call.phase.refused)
        invariant Live(path, disk, now)
        invariant Drive(path, disk, now, io, n + i) == Drive(path, old(disk), call, io, n)
      {
        IoHolds(path, disk, now, io(n + i));
        IoProgress(path, disk, now, io(n + i));
        now := Io(path, disk, now, io(n + i)).1;
        if io(n + i) {
          disk := disk - {call.created[i]};
        }
      }
    }

    /** Roll back and answer `refused`. */
    method Refuse(call: Call, refused: ConsumeResult, io: nat -> bool, n: nat) returns (result: ConsumeResult)
      requires Live(path, disk, Rollback(call, refused)) && refused.Rejected?
      modifies this`disk
      ensures (disk, result) == Drive(path, old(disk), Rollback(call, refused), io, n)
    {
      if call.created != [] {
        RemoveMarkers(Rollback(call, refused), io, n);
      }
      result := refused;
    }

    /** The validation loop of a set: the first malformed or repeated key. */
    method FindUnusable(keys: seq<string>) returns (bad: nat)
      ensures bad == FirstUnusable(keys)
    {
      var seen: set<string> := {};
      bad := 0;
      while bad < |keys|
        invariant bad <= |keys|
        invariant seen == set j | 0 <= j < bad :: keys[j]
        invariant FirstUnusable(keys, bad) == FirstUnusable(keys)
      {
        assert keys[bad] in seen <==> keys[bad] in keys[..bad];
        if !ValidNonceText(keys[bad]) || keys[bad] in seen {
          return;
        }
        seen := seen + {keys[bad]};
        bad := bad + 1;
      }
    }

    /** `consume_nonces`: all keys or none, an I/O error counting as a rejection at index 0. */
    method ConsumeNonces(keys: seq<string>, io: nat -> bool) returns (result: ConsumeResult)
      modifies this`disk
      ensures (disk, result) == Consume(path, old(disk), Keys, keys, io)
    {
      StartHoldsNothing(path, Keys, keys);
      var bad := FindUnusable(keys);
      if bad < |keys| {
        return Rejected(bad);
      }
      var call := Start(Keys, keys);
      ghost var start := call;
      var n := 0;
      while |call.created| < |keys|
        invariant Live(path, disk, call) && call.keys == keys && call.api == Keys
        invariant call.phase == AfterCreates(keys, |call.created|)
        invariant Drive(path, disk, call, io, n) == Drive(path, old(disk), start, io, 0)
        decreases |keys| - |call.created|
      {
        var marker := path(keys[|call.created|]);
        IoHolds(path, disk, call, io(n));
        IoProgress(path, disk, call, io(n));
        if !io(n) {
          result := Refuse(call, Rejected(0), io, n + 1);
          return;
        } else if marker in disk {
          result := Refuse(call, Rejected(|call.created|), io, n + 1);
          return;
        }
        disk := disk + {marker};
        call := call.(created := call.created + [marker], phase := AfterCreates(keys, |call.created| + 1));
        n := n + 1;
      }
      result := WriteAndSync(call, io, n);
    }

    /** Write and sync every marker, then the directory. */
    method WriteAndSync(call: Call, io: nat -> bool, n: nat) returns (result: ConsumeResult)
      requires Live(path, disk, call) && call.api.Keys?
      requires call.phase == AfterCreates(call.keys, |call.created|) && |call.created| == |call.keys|
      modifies this`disk
      ensures (disk, result) == Drive(path, old(disk), call, io, n)
    {
      var count := |call.created|;
      ghost var now := call;
      for i := 0 to count
        invariant now == call.(phase := if i < count then Writing(i) else OpeningDir)
        invariant disk == old(disk) && Live(path, disk, now)
        invariant Drive(path, disk, now, io, n + i) == Drive(path, old(disk), call, io, n)
      {
        IoHolds(path, disk, now, io(n + i));
        IoProgress(path, disk, now, io(n + i));
        if !io(n + i) {
          assert Io(path, disk, now, false) == (disk, Rollback(call, Rejected(0)));
          result := Refuse(call, Rejected(0), io, n + i + 1);
          return;
        }
        now := Io(path, disk, now, io(n + i)).1;
      }
      IoHolds(path, disk, now, io(n + count));
      if !io(n + count) {
        assert Drive(path, disk, now.(phase := Done(Rejected(0))), io, n + count + 1) == (disk, Rejected(0));
        return Rejected(0);  // the directory cannot be opened: no rollback
      }
      now := now.(phase := SyncingDir);
      assert Drive(path, disk, now, io, n + count + 1) == Drive(path, old(disk), call, io, n);
      IoHolds(path, disk, now, io(n + count + 1));
      if !io(n + count + 1) {
        assert Io(path, disk, now, false) == (disk, Rollback(call, Rejected(0)));
        result := Refuse(call, Rejected(0), io, n + count + 2);
      } else {
        IoHolds(path, disk, now, true);
        assert Drive(path, disk, now.(phase := Done(Consumed)), io, n + count + 2) == (disk, Consumed);
        result := Consumed;
      }
    }

    /** `consume_nonce`: one key; any failure after its creation removes the marker again. */
    method ConsumeNonce(nonce: string, io: nat -> bool) returns (ok: bool)
      modifies this`disk
      ensures var (after, result) := Consume(path, old(disk), SingleKey, [nonce], io);
        disk == after && ok == result.Consumed?
    {
      StartHoldsNothing(path, SingleKey, [nonce]);
      assert Unusable([nonce], 0) <==> !ValidNonceText(nonce);
      if !ValidNonceText(nonce) { return false; }
      assert FirstUnusable([nonce]) == 1;
      var marker := path(nonce);
      var call := Start(SingleKey, [nonce]);
      assert call == Call(SingleKey, [nonce], [], Creating);
      IoHolds(path, disk, call, io(0));
      IoProgress(path, disk, call, io(0));
      assert [] + [marker] == [marker];
      if !io(0) || marker in disk {
        ghost var refused := call.(phase := Done(Rejected(0)));
        assert Io(path, disk, call, io(0)) == (disk, refused);
        assert Drive(path, disk, refused, io, 1) == (disk, Rejected(0));
        return false;
      }
      assert Io(path, disk, call, true) == (disk + {marker}, SingleMarker(path, nonce, Writing(0)));
      disk := disk + {marker};
      AfterSingleCreate(path, disk, nonce, io);
      if !io(1) || !io(2) || !io(3) {  // write and sync, open the directory, sync the directory
        var removal := if !io(1) then 2 else if !io(2) then 3 else 4;
        if io(removal) { disk := disk - {marker}; }
        return false;
      }
      return true;
    }
  }
}
