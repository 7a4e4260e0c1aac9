/** Offline database restore: the operation manifest, the files of the data root under their
    canonical, quarantine, staged and failed names, and what a process that dies or meets an error at
    any effect leaves behind.

    Every read or write of the data root consumes one fate of a schedule, so a claim about all
    schedules is a claim about every crash point and every I/O error. Hashes stand for content, and the
    publication of a manifest is one effect. */
module Restore {
  import opened Basics

  datatype Kind = Database | Wal | Shm
  datatype Name = Canonical(kind: Kind) | Quarantine(kind: Kind) | Staged | Failed
  datatype File = File(inode: nat, content: int)
  type Directory = map<Name, File>

  datatype Phase =
    | Prepared | Quarantining | OldQuarantined | Installing | NewInstalled | Verified | Committed
    | RollingBack | RolledBack | FailedNeedsOperator

  datatype Operation = Operation(
    phase: Phase, oldHash: Option<int>, walPresent: bool, shmPresent: bool,
    sourceHash: int, installedHash: Option<int>, failureReason: bool)
  {
    predicate OldDatabasePresent() { oldHash.Some? }

    /** `validateRestoreOperation`, for the fields whose values the protocol decides. */
    predicate Valid() {
      && (installedHash.Some? ==> installedHash.value == sourceHash)
      && (phase in {NewInstalled, Verified, Committed} ==> installedHash.Some?)
      && (phase == Committed ==> !failureReason)
      && (phase in {RollingBack, RolledBack, FailedNeedsOperator} ==> failureReason)
    }
  }

  /** What happens to the next effect: it succeeds, it reports an error (a manifest may be in place all
      the same), or the process dies before it. */
  datatype Fate = Fine | Fault(applied: bool) | Crash
  datatype Step = Ok | Error | Dead

  // ----- Where the files are

  /** The canonical files when the operation began and the staged copy of the backup. */
  datatype Start = Start(original: map<Kind, File>, copy: File)

  ghost predicate Holds(dir: Directory, name: Name, file: File) { name in dir && dir[name] == file }

  ghost predicate Home(dir: Directory, start: Start, k: Kind) {
    Quarantine(k) !in dir &&
    if k in start.original then Holds(dir, Canonical(k), start.original[k]) else Canonical(k) !in dir
  }

  /** The old file is under its quarantine name, and only a database file may stand in its place. */
  ghost predicate Away(dir: Directory, start: Start, k: Kind) {
    (if k in start.original then Holds(dir, Quarantine(k), start.original[k]) else Quarantine(k) !in dir) &&
    (Canonical(k) in dir ==> k == Database && dir[Canonical(k)] == start.copy)
  }

  ghost predicate Kept(dir: Directory, start: Start, k: Kind) { Home(dir, start, k) || Away(dir, start, k) }

  ghost predicate AllHome(dir: Directory, start: Start) {
    Home(dir, start, Database) && Home(dir, start, Wal) && Home(dir, start, Shm)
  }
  ghost predicate AllAway(dir: Directory, start: Start) {
    Away(dir, start, Database) && Away(dir, start, Wal) && Away(dir, start, Shm)
  }
  ghost predicate AllKept(dir: Directory, start: Start) {
    Kept(dir, start, Database) && Kept(dir, start, Wal) && Kept(dir, start, Shm)
  }

  ghost predicate Installed(dir: Directory, start: Start) {
    Holds(dir, Canonical(Database), start.copy) && Staged !in dir
  }
  ghost predicate NotInstalled(dir: Directory, start: Start) {
    Holds(dir, Staged, start.copy) && (Canonical(Database) in dir ==> Home(dir, start, Database))
  }

  /** The directory a manifest in `phase` may be found with. */
  ghost predicate Shape(dir: Directory, start: Start, phase: Phase) {
    match phase
    case Prepared => AllHome(dir, start) && NotInstalled(dir, start)
    case Quarantining => AllKept(dir, start) && NotInstalled(dir, start)
    case OldQuarantined => AllAway(dir, start) && NotInstalled(dir, start) && Canonical(Database) !in dir
    case Installing =>
      AllAway(dir, start) && (Installed(dir, start) || (NotInstalled(dir, start) && Canonical(Database) !in dir))
    case NewInstalled => AllAway(dir, start) && Installed(dir, start)
    case Verified => AllAway(dir, start) && Installed(dir, start)
    case Committed => AllAway(dir, start) && Installed(dir, start)
    case RollingBack => AllKept(dir, start)
    case RolledBack => AllHome(dir, start)
    case FailedNeedsOperator => AllKept(dir, start)
  }

  ghost predicate Records(op: Operation, start: Start) {
    && op.oldHash == (if Database in start.original then Some(start.original[Database].content) else None)
    && op.walPresent == (Wal in start.original) && op.shmPresent == (Shm in start.original)
    && op.sourceHash == start.copy.content
    && op.Valid()
    && (op.failureReason <==> op.phase in {RollingBack, RolledBack, FailedNeedsOperator})
  }

  /** The copy is a file of its own. */
  ghost predicate Distinct(start: Start) { forall k | k in start.original :: start.original[k].inode != start.copy.inode }

  // ----- Facts about shapes

  /** Whatever the phase, the old database, WAL and SHM each exist under exactly one of their two
      names: nothing is lost and nothing is duplicated. */
  lemma NothingIsLost(dir: Directory, start: Start, phase: Phase, k: Kind)
    requires Shape(dir, start, phase) && Distinct(start) && k in start.original
    ensures Holds(dir, Canonical(k), start.original[k]) != Holds(dir, Quarantine(k), start.original[k])
    ensures Quarantine(k) in dir ==> dir[Quarantine(k)] == start.original[k]
  {
    assert Kept(dir, start, k);
  }

  /** A directory that fits a phase also fits rolling back from it. */
  lemma ShapeIsKept(dir: Directory, start: Start, phase: Phase)
    requires Shape(dir, start, phase)
    ensures AllKept(dir, start)
  {
  }

  /** The phase recovery ends in, decided by the phase it finds. */
  function Outcome(phase: Phase): Phase {
    match phase
    case Prepared => RolledBack
    case Quarantining => RolledBack
    case RollingBack => RolledBack
    case RolledBack => RolledBack
    case FailedNeedsOperator => FailedNeedsOperator
    case _ => Committed
  }

  // ----- The data root

  class DataRoot {
    var dir: Directory
    var manifest: Option<Operation>
    var fates: seq<Fate>
    const copy: File  // the verified copy of the backup that will be staged
    ghost const start: Start

    constructor (canonical: map<Kind, File>, copy: File, schedule: seq<Fate>)
      requires forall k | k in canonical :: canonical[k].inode != copy.inode
      ensures dir == (map k | k in canonical :: Canonical(k) := canonical[k])
      ensures start == Start(canonical, copy) && manifest == None && fates == schedule
      ensures Coherent()
    {
      dir := map k | k in canonical :: Canonical(k) := canonical[k];
      manifest, fates, this.copy, start := None, schedule, copy, Start(canonical, copy);
    }

    /** What every effect keeps: the manifest and the directory agree. */
    ghost predicate Coherent()
      reads this
    {
      Distinct(start) && start.copy == copy &&
      match manifest
      case None => AllHome(dir, start)
      case Some(op) => Records(op, start) && Shape(dir, start, op.phase)
    }

    /** No effect of the schedule reports an error. */
    ghost predicate Faultless()
      reads this`fates
    {
      forall i | 0 <= i < |fates| :: !fates[i].Fault?
    }

    /** The process survives the schedule. */
    ghost predicate Survives()
      reads this`fates
    {
      forall i | 0 <= i < |fates| :: fates[i] != Crash
    }

    // ----- Effects

    /** Takes the fate of the next effect. */
    method Next() returns (fate: Fate)
      modifies this`fates
      ensures old(Faultless()) ==> Faultless() && !fate.Fault?
      ensures old(Survives()) ==> Survives() && fate != Crash
    {
      if fates == [] { return Fine; }
      fate := fates[0];
      fates := fates[1..];
    }

    /** A read or a directory sync: it may fail, but it changes nothing. */
    method Touch() returns (s: Step)
      modifies this`fates
      ensures old(Faultless()) ==> Faultless() && s != Error
      ensures old(Survives()) ==> Survives() && s != Dead
    {
      var fate := Next();
      s := match fate case Fine => Ok case Fault(_) => Error case Crash => Dead;
    }

    method Rename(from: Name, to: Name) returns (s: Step)
      modifies this`dir, this`fates
      ensures s == Ok ==> from in old(dir) && dir == (old(dir) - {from})[to := old(dir)[from]]
      ensures s != Ok ==> dir == old(dir)
      ensures old(Faultless()) ==> Faultless() && (from in old(dir) ==> s != Error)
      ensures old(Survives()) ==> Survives() && s != Dead
    {
      s := Touch();
      if s == Ok {
        if from !in dir { return Error; }
        dir := (dir - {from})[to := dir[from]];
      }
    }

    /** `publishRestoreOperation`: the manifest is replaced as a whole or not at all, whatever is
        reported. */
    method Publish(op: Operation) returns (s: Step)
      modifies this`manifest, this`fates
      ensures manifest == old(manifest) || (manifest == Some(op) && op.Valid())
      ensures s == Ok ==> manifest == Some(op)
      ensures s == Dead ==> manifest == old(manifest)
      ensures old(Faultless()) ==> Faultless() && (op.Valid() ==> s != Error)
      ensures old(Survives()) ==> Survives() && s != Dead
    {
      if !op.Valid() { return Error; }
      var fate := Next();
      match fate {
        case Fine =>
          manifest := Some(op);
          s := Ok;
        case Fault(applied) =>
          if applied { manifest := Some(op); }
          s := Error;
        case Crash => s := Dead;
      }
    }

    // ----- Rolling back

    /** `failNeedsOperator`: leaves everything in place for a person to look at. */
    method FailNeedsOperator(op: Operation) returns (s: Step)
      requires Coherent() && manifest.Some? && Records(op, start)
      modifies this`manifest, this`fates
      ensures Coherent() && s != Ok && manifest.Some?
      ensures old(Survives()) ==> Survives() && s != Dead
      ensures manifest == old(manifest) || manifest.value.phase == FailedNeedsOperator
    {
      ShapeIsKept(dir, start, manifest.value.phase);
      s := Publish(op.(phase := FailedNeedsOperator, failureReason := true));
      if s == Ok { s := Error; }
    }

    /** First part of `rollbackRestore`: whatever stands under the canonical name is the old database,
        which stays, or the new one, which is set aside; then the old database returns. */
    method ReturnDatabase(op: Operation) returns (s: Step)
      requires Coherent() && manifest == Some(op) && op.phase == RollingBack
      modifies this`dir, this`fates
      ensures Coherent()
      ensures s == Ok ==> Home(dir, start, Database)
      ensures forall k | k != Database :: old(Home(dir, start, k)) ==> Home(dir, start, k)
      ensures old(Faultless()) ==> Faultless() && s != Error
      ensures old(Survives()) ==> Survives() && s != Dead
    {
      if Canonical(Database) in dir {
        s := Touch();
        if s != Ok { return; }
        var value := dir[Canonical(Database)].content;
        if op.oldHash == Some(value) && Quarantine(Database) !in dir {
        } else if value == op.sourceHash {
          s := Rename(Canonical(Database), Failed);
          if s != Ok { return; }
        } else {
          return Error;
        }
      }
      s := Ok;
      if op.OldDatabasePresent() && Canonical(Database) !in dir {
        s := Rename(Quarantine(Database), Canonical(Database));
      }
    }

    /** The sidecar loop of `rollbackRestore`, for one sidecar. */
    method ReturnSidecar(op: Operation, k: Kind, present: bool) returns (s: Step)
      requires Coherent() && manifest == Some(op) && op.phase == RollingBack
      requires k != Database && present == (k in start.original)
      modifies this`dir, this`fates
      ensures Coherent()
      ensures s == Ok ==> Home(dir, start, k)
      ensures forall j | j != k :: old(Home(dir, start, j)) ==> Home(dir, start, j)
      ensures old(Faultless()) ==> Faultless() && s != Error
      ensures old(Survives()) ==> Survives() && s != Dead
    {
      assert Kept(dir, start, k);
      s := Ok;
      if present && Canonical(k) !in dir {
        s := Rename(Quarantine(k), Canonical(k));
      }
    }

    method ReturnFiles(op: Operation) returns (s: Step)
      requires Coherent() && manifest == Some(op) && op.phase == RollingBack
      modifies this`dir, this`fates
      ensures Coherent()
      ensures s == Ok ==> AllHome(dir, start)
      ensures old(Faultless()) ==> Faultless() && s != Error
      ensures old(Survives()) ==> Survives() && s != Dead
    {
      s := ReturnDatabase(op);
      if s != Ok { return; }
      s := ReturnSidecar(op, Wal, op.walPresent);
      if s != Ok { return; }
      s := ReturnSidecar(op, Shm, op.shmPresent);
      if s != Ok { return; }
      s := Touch();
      if s != Ok { return; }
      if op.OldDatabasePresent() {
        s := Touch();
        if s != Ok { return; }
        if Canonical(Database) !in dir || Some(dir[Canonical(Database)].content) != op.oldHash { return Error; }
      }
    }

    /** `rollbackRestore`: the cause of the rollback is always reported as an error. */
    method Rollback(before: Operation) returns (s: Step)
      requires Coherent() && manifest.Some? && Records(before, start)
      modifies this
      ensures Coherent() && s != Ok && manifest.Some?
      ensures old(Faultless()) ==> Faultless()
      ensures old(Faultless()) && s == Error ==> manifest.value.phase == RolledBack
      ensures old(Faultless()) && s == Dead ==> manifest == old(manifest) || manifest.value.phase == RollingBack
      ensures old(Survives()) ==> Survives() && s != Dead
    {
      var op := before.(phase := RollingBack, failureReason := true);
      ShapeIsKept(dir, start, manifest.value.phase);
      s := Publish(op);
      if s != Ok { return; }
      s := ReturnFiles(op);
      if s == Dead { return; }
      if s == Error {
        s := FailNeedsOperator(op);
        return;
      }
      s := Publish(op.(phase := RolledBack));
      if s == Ok { s := Error; }
    }

    // ----- Restoring

    /** Stages the copy, records what stands under the canonical names and publishes the operation. */
    method Prepare() returns (s: Step, op: Operation)
      requires Coherent() && manifest == None
      modifies this
      ensures Coherent()
      ensures s == Ok ==> manifest == Some(op) && op.phase == Prepared
      ensures s != Ok ==> manifest == None || manifest.value.phase == Prepared
      ensures old(Faultless()) ==> Faultless() && s != Error
      ensures old(Survives()) ==> Survives() && s != Dead
    {
      op := Operation(Prepared, None, false, false, copy.content, None, false);
      s := Touch();
      if s != Ok {
        var leftover: int := *;
        dir := dir[Staged := File(copy.inode, leftover)];
        return;
      }
      dir := dir[Staged := copy];
      s := Touch();
      if s != Ok { return; }
      op := op.(oldHash := if Canonical(Database) in dir then Some(dir[Canonical(Database)].content) else None,
                walPresent := Canonical(Wal) in dir, shmPresent := Canonical(Shm) in dir);
      s := Publish(op);
    }

    method MoveAway(op: Operation, k: Kind, present: bool) returns (s: Step)
      requires Coherent() && manifest == Some(op) && op.phase == Quarantining
      requires Home(dir, start, k) && present == (k in start.original)
      modifies this`dir, this`fates
      ensures Coherent()
      ensures s == Ok ==> Away(dir, start, k) && Canonical(k) !in dir
      ensures forall j | j != k :: old(Home(dir, start, j)) ==> Home(dir, start, j)
      ensures forall j | j != k :: old(Away(dir, start, j)) ==> Away(dir, start, j)
      ensures forall j | j != k && old(Canonical(j) !in dir) :: Canonical(j) !in dir
      ensures old(Faultless()) ==> Faultless() && s != Error
      ensures old(Survives()) ==> Survives() && s != Dead
    {
      s := Ok;
      if present { s := Rename(Canonical(k), Quarantine(k)); }
    }

    method QuarantineFiles(op: Operation) returns (s: Step)
      requires Coherent() && manifest == Some(op) && op.phase == Quarantining && AllHome(dir, start)
      modifies this`dir, this`fates
      ensures Coherent()
      ensures s == Ok ==> Shape(dir, start, OldQuarantined)
      ensures old(Faultless()) ==> Faultless() && s != Error
      ensures old(Survives()) ==> Survives() && s != Dead
    {
      s := MoveAway(op, Database, op.OldDatabasePresent());
      if s != Ok { return; }
      s := MoveAway(op, Wal, op.walPresent);
      if s != Ok { return; }
      s := MoveAway(op, Shm, op.shmPresent);
      if s != Ok { return; }
      s := Touch();
    }

    /** Renames the staged copy over the free canonical name. */
    method InstallCopy(op: Operation) returns (s: Step)
      requires Coherent() && manifest == Some(op) && op.phase == Installing
      requires NotInstalled(dir, start) && Canonical(Database) !in dir
      modifies this`dir, this`fates
      ensures Coherent()
      ensures s == Ok ==> Shape(dir, start, NewInstalled)
      ensures old(Faultless()) ==> Faultless() && s != Error
      ensures old(Survives()) ==> Survives() && s != Dead
    {
      s := Rename(Staged, Canonical(Database));
      if s != Ok { return; }
      s := Touch();
    }

    /** Advances the manifest over a directory that already has the next phase's shape. */
    method Advance(before: Operation, phase: Phase) returns (s: Step, op: Operation)
      requires Coherent() && manifest.Some? && Records(before, start) && !before.failureReason
      requires Shape(dir, start, phase) && before.(phase := phase).Valid()
      requires phase !in {RollingBack, RolledBack, FailedNeedsOperator}
      modifies this`manifest, this`fates
      ensures Coherent() && op == before.(phase := phase) && Records(op, start)
      ensures s == Ok ==> manifest == Some(op)
      ensures s != Ok ==> manifest == old(manifest) || manifest == Some(op)
      ensures s == Dead ==> manifest == old(manifest)
      ensures old(Faultless()) ==> Faultless() && s != Error
      ensures old(Survives()) ==> Survives() && s != Dead
    {
      op := before.(phase := phase);
      s := Publish(op);
    }

    /** From the first rename to the manifest that says the copy is installed; an error here is answered
        by the caller with a rollback of `op`. */
    method Switch(before: Operation, cancelled: bool) returns (s: Step, op: Operation)
      requires Coherent() && manifest == Some(before) && before.phase == Quarantining && AllHome(dir, start)
      modifies this
      ensures Coherent() && Records(op, start) && !op.failureReason && manifest.Some?
      ensures s == Ok ==> manifest == Some(op) && op.phase == NewInstalled
      ensures !manifest.value.failureReason
      ensures old(Faultless()) ==> Faultless() && (s == Error ==> cancelled)
      ensures s == Ok ==> !cancelled
      ensures old(Survives()) ==> Survives() && s != Dead
    {
      op := before;
      s := QuarantineFiles(op);
      if s != Ok { return; }
      s, op := Advance(op, OldQuarantined);
      if s != Ok { return; }
      if cancelled { return Error, op; }
      s, op := Advance(op, Installing);
      if s != Ok { return; }
      s, op := InstallAndRecord(op);
    }

    method InstallAndRecord(before: Operation) returns (s: Step, op: Operation)
      requires Coherent() && manifest == Some(before) && before.phase == Installing
      requires NotInstalled(dir, start) && Canonical(Database) !in dir
      modifies this
      ensures Coherent() && Records(op, start) && !op.failureReason && manifest.Some?
      ensures !manifest.value.failureReason
      ensures s == Ok ==> manifest == Some(op) && op.phase == NewInstalled
      ensures old(Faultless()) ==> Faultless() && s != Error
      ensures old(Survives()) ==> Survives() && s != Dead
    {
      op := before;
      s := InstallCopy(op);
      if s != Ok { return; }
      s := Touch();
      if s != Ok { return; }
      if dir[Canonical(Database)].content != op.sourceHash { return Error, op; }
      s, op := Advance(op.(installedHash := Some(op.sourceHash)), NewInstalled);
    }

    /** Verification and the last two manifests. */
    method Conclude(before: Operation, verifies: bool) returns (s: Step, op: Operation)
      requires Coherent() && manifest.Some? && Records(before, start) && !before.failureReason
      requires Shape(dir, start, Verified) && before.installedHash.Some?
      modifies this`manifest, this`fates
      ensures Coherent() && Records(op, start) && !op.failureReason
      ensures s == Ok ==> verifies && manifest == Some(op) && op.phase == Committed
      ensures s != Ok ==> manifest == old(manifest) || (manifest.Some? && manifest.value.phase in {Verified, Committed})
      ensures old(Faultless()) ==> Faultless() && (s == Error ==> !verifies)
      ensures old(Survives()) ==> Survives() && s != Dead
    {
      op := before;
      if !verifies { return Error, op; }
      s, op := Advance(op, Verified);
      if s != Ok { return; }
      s, op := Advance(op, Committed);
    }

    /** The whole operation after `Quarantining` has been published. */
    method SwitchAndConclude(before: Operation, cancelled1: bool, cancelled2: bool, verifies: bool) returns (s: Step)
      requires Coherent() && manifest == Some(before) && before.phase == Quarantining && AllHome(dir, start)
      modifies this
      ensures Coherent() && manifest.Some?
      ensures s == Ok ==> manifest.value.phase == Committed
      ensures old(Faultless()) ==> Faultless() && manifest.value.phase != FailedNeedsOperator
      ensures old(Faultless()) && s == Error ==> manifest.value.phase == RolledBack
      ensures old(Faultless()) ==> (s == Error ==> cancelled1 || cancelled2 || !verifies)
      ensures s == Ok ==> !cancelled1 && !cancelled2 && verifies
      ensures old(Survives()) ==> Survives() && s != Dead
    {
      var op;
      s, op := Switch(before, cancelled1);
      if s == Ok {
        if cancelled2 {
          s := Error;
        } else {
          s, op := Conclude(op, verifies);
        }
      }
      if s == Error { s := Rollback(op); }
    }

    /** `RestoreOffline`: commits, or puts the old files back. */
    method RestoreOffline(cancelled0: bool, cancelled1: bool, cancelled2: bool, verifies: bool) returns (s: Step)
      requires Coherent() && manifest == None
      modifies this
      ensures Coherent()
      ensures s == Ok ==> manifest.Some? && manifest.value.phase == Committed
      ensures s == Ok ==> !cancelled0 && !cancelled1 && !cancelled2 && verifies
      ensures old(Faultless()) ==> manifest.Some? ==> manifest.value.phase != FailedNeedsOperator
      ensures old(Faultless()) && s == Error ==>
        manifest.Some? && manifest.value.phase == RolledBack &&
        (cancelled0 || cancelled1 || cancelled2 || !verifies)
      ensures old(Survives()) ==> s != Dead
    {
      var op;
      s, op := Prepare();
      if s != Ok { return; }
      if cancelled0 {
        s := Publish(op.(phase := RolledBack, failureReason := true));
        if s == Ok { s := Error; }
        return;
      }
      s, op := Advance(op, Quarantining);
      if s != Ok { return; }
      s := SwitchAndConclude(op, cancelled1, cancelled2, verifies);
    }

    // ----- Recovering

    /** `quarantineReady` and `canonicalMatchesInitial`: what recovery checks before it trusts a phase. */
    method QuarantineReady(op: Operation) returns (s: Step, ready: bool)
      requires Coherent() && manifest == Some(op)
      modifies this`fates
      ensures s == Ok && AllAway(dir, start) ==> ready
      ensures ready ==> forall k | k in start.original :: Holds(dir, Quarantine(k), start.original[k])
      ensures old(Faultless()) ==> Faultless() && s != Error
      ensures old(Survives()) ==> Survives() && s != Dead
    {
      s := Touch();
      ready := s == Ok &&
        (op.OldDatabasePresent() ==>
          Quarantine(Database) in dir && Some(dir[Quarantine(Database)].content) == op.oldHash) &&
        (op.walPresent ==> Quarantine(Wal) in dir) && (op.shmPresent ==> Quarantine(Shm) in dir);
      forall k | ready && k in start.original ensures Holds(dir, Quarantine(k), start.original[k]) {
        ShapeIsKept(dir, start, op.phase);
        match k {
          case Database => assert Kept(dir, start, Database);
          case Wal => assert Kept(dir, start, Wal);
          case Shm => assert Kept(dir, start, Shm);
        }
      }
    }

    /** `finishRecoveredRestore`: a target that does not verify is reported and left alone. */
    method FinishRecovered(before: Operation, verifies: bool) returns (s: Step)
      requires Coherent() && manifest == Some(before) && !before.failureReason
      requires Shape(dir, start, NewInstalled) && Outcome(before.phase) == Committed
      modifies this`manifest, this`fates
      ensures Coherent() && manifest.Some? && Outcome(manifest.value.phase) == Committed
      ensures s == Ok ==> manifest.value.phase == Committed
      ensures old(Faultless()) ==> Faultless() && (s == Error ==> !verifies)
      ensures old(Survives()) ==> Survives() && s != Dead
    {
      if !verifies { return Error; }
      var op := before.(installedHash := Some(before.sourceHash));
      if op.phase != NewInstalled && op.phase != Verified {
        s, op := Advance(op, NewInstalled);
        if s != Ok { return; }
      }
      s, op := Conclude(op, verifies);
    }

    /** Puts the staged copy under the free canonical name. `undo` says whether an error is answered with
        a rollback: one in advancing the manifest is not. */
    method PlaceCopy(before: Operation) returns (s: Step, op: Operation, undo: bool)
      requires Coherent() && manifest == Some(before) && before.phase in {OldQuarantined, Installing}
      requires Canonical(Database) !in dir
      modifies this
      ensures Coherent() && manifest.Some? && Records(op, start)
      ensures manifest.value.phase in {OldQuarantined, Installing}
      ensures s == Ok ==> manifest == Some(op) && Shape(dir, start, NewInstalled)
      ensures old(Faultless()) ==> Faultless() && s != Error
      ensures old(Survives()) ==> Survives() && s != Dead
    {
      op, undo := before, true;
      s := Touch();
      if s != Ok { return; }
      if Staged !in dir || dir[Staged].content != op.sourceHash { return Error, op, true; }
      s, op := Advance(op, Installing);
      if s != Ok { return s, op, false; }
      s := InstallCopy(op);
    }

    /** The branch of recovery for a quarantined old database whose copy may not be in place yet. */
    method RecoverInstall(before: Operation, verifies: bool) returns (s: Step)
      requires Coherent() && manifest == Some(before) && before.phase in {OldQuarantined, Installing}
      modifies this
      ensures Coherent() && manifest.Some?
      ensures s == Ok ==> manifest.value.phase == Committed
      ensures old(Faultless()) ==> (s == Error ==> !verifies)
      ensures old(Faultless()) ==> Outcome(manifest.value.phase) == Committed
      ensures old(Survives()) ==> s != Dead
    {
      var op := before;
      var ready, undo;
      s, ready := QuarantineReady(op);
      if s == Dead { return; }
      if s == Error || !ready { s := FailNeedsOperator(op); return; }
      if Canonical(Database) in dir {
        s := Touch();
        if s == Dead { return; }
        if s == Error { s := FailNeedsOperator(op); return; }
        // Any other file here would be rolled back; no crash and no error leaves one.
        if dir[Canonical(Database)].content != op.sourceHash { assert false; }
      } else {
        s, op, undo := PlaceCopy(op);
        if s == Error && undo { s := Rollback(op); return; }
        if s != Ok { return; }
      }
      s := FinishRecovered(op, verifies);
    }

    method RecoverInstalled(op: Operation, verifies: bool) returns (s: Step)
      requires Coherent() && manifest == Some(op) && op.phase in {NewInstalled, Verified}
      modifies this
      ensures Coherent() && manifest.Some?
      ensures s == Ok ==> manifest.value.phase == Committed
      ensures old(Faultless()) ==> Faultless() && (s == Error ==> !verifies)
      ensures old(Faultless()) ==> Outcome(manifest.value.phase) == Committed
      ensures old(Survives()) ==> Survives() && s != Dead
    {
      var ready;
      s, ready := QuarantineReady(op);
      if s == Dead { return; }
      if s == Error || !ready { s := FailNeedsOperator(op); return; }
      s := Touch();
      if s == Dead { return; }
      if s == Error || Canonical(Database) !in dir || dir[Canonical(Database)].content != op.sourceHash {
        s := Rollback(op);
        return;
      }
      s := FinishRecovered(op, verifies);
    }

    method RecoverPrepared(op: Operation) returns (s: Step)
      requires Coherent() && manifest == Some(op) && op.phase == Prepared
      modifies this`manifest, this`fates
      ensures Coherent() && manifest.Some?
      ensures s == Ok ==> manifest.value.phase == RolledBack
      ensures old(Faultless()) ==> Faultless() && s != Error && Outcome(manifest.value.phase) == RolledBack
      ensures old(Survives()) ==> Survives() && s != Dead
    {
      s := Touch();
      if s == Dead { return; }
      var matches := s == Ok &&
        if !op.OldDatabasePresent() then Canonical(Database) !in dir
        else Canonical(Database) in dir && Some(dir[Canonical(Database)].content) == op.oldHash;
      if !matches { s := FailNeedsOperator(op); return; }
      s := Publish(op.(phase := RolledBack, failureReason := true));
    }

    /** `RecoverRestoreOffline`, with the backup found intact. A schedule without I/O errors never
        changes where the operation is heading; one the process also survives gets there. */
    method Recover(verifies: bool) returns (s: Step)
      requires Coherent() && manifest.Some?
      modifies this
      ensures Coherent() && manifest.Some?
      ensures old(manifest.value.phase) in {Committed, RolledBack, FailedNeedsOperator} ==>
        dir == old(dir) && manifest == old(manifest)
      ensures old(Faultless()) ==> Outcome(manifest.value.phase) == Outcome(old(manifest.value.phase))
      ensures old(Faultless() && Survives()) && verifies ==>
        manifest.value.phase == Outcome(old(manifest.value.phase))
    {
      var op := manifest.value;
      match op.phase {
        case Committed => s := Ok;
        case RolledBack => s := Ok;
        case FailedNeedsOperator => s := Error;
        case Prepared => s := RecoverPrepared(op);
        case Quarantining => s := Rollback(op);
        case RollingBack => s := Rollback(op);
        case OldQuarantined => s := RecoverInstall(op, verifies);
        case Installing => s := RecoverInstall(op, verifies);
        case NewInstalled => s := RecoverInstalled(op, verifies);
        case Verified => s := RecoverInstalled(op, verifies);
      }
    }

    /** From any point a crash left behind, through any number of recoveries that die at any effect, one
        recovery that is allowed to finish ends the operation: committed with the copy under the
        canonical name and the old files in quarantine, or rolled back with every canonical file as it
        was. Which of the two was decided by the phase the first crash left. */
    method CrashesConverge(schedules: seq<seq<Fate>>) returns (s: Step)
      requires Coherent() && manifest.Some? && manifest.value.phase != FailedNeedsOperator
      requires forall i, j | 0 <= i < |schedules| && 0 <= j < |schedules[i]| :: !schedules[i][j].Fault?
      modifies this
      ensures manifest.Some? && manifest.value.phase == Outcome(old(manifest.value.phase))
      ensures manifest.value.phase == Committed ==> Installed(dir, start) && AllAway(dir, start)
      ensures manifest.value.phase == RolledBack ==> AllHome(dir, start)
      ensures manifest.value.phase in {Committed, RolledBack}
    {
      for i := 0 to |schedules|
        invariant Coherent() && manifest.Some?
        invariant Outcome(manifest.value.phase) == Outcome(old(manifest.value.phase))
      {
        fates := schedules[i];
        s := Recover(true);
      }
      fates := [];
      s := Recover(true);
    }

    /** A whole operation under crashes: either it never became an operation and the canonical files are
        untouched, or it ends one of the two ways. */
    method RestoreSurvivesCrashes(cancelled0: bool, cancelled1: bool, cancelled2: bool, verifies: bool,
                                  schedules: seq<seq<Fate>>)
      requires Coherent() && manifest == None && Faultless()
      requires forall i, j | 0 <= i < |schedules| && 0 <= j < |schedules[i]| :: !schedules[i][j].Fault?
      modifies this
      ensures manifest == None || manifest.value.phase == RolledBack ==> AllHome(dir, start)
      ensures manifest.Some? ==> manifest.value.phase in {Committed, RolledBack}
      ensures manifest.Some? && manifest.value.phase == Committed ==> Installed(dir, start) && AllAway(dir, start)
    {
      var s := RestoreOffline(cancelled0, cancelled1, cancelled2, verifies);
      if manifest.Some? { s := CrashesConverge(schedules); }
    }
  }
}
