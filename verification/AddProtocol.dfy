/** `FactGraph.add` and its recovery, step by step over the disk of module AddJournal.

    The fault schedule is an arbitrary function of time, so every contract below holds for
    every pattern of failing system calls and for a kill at every system call.  Contracts speak
    about what the disk means (`MayBecome`, `MustBecome`), never about the protocol's progress;
    the ghost fields `tx` and `stage` only carry the proof. */
module AddProtocol {
  import opened Wrappers
  import opened AddJournal

  datatype Fault = Fine | Fails | Kill

  datatype Why =
    | IoError           // a system call failed; nothing was decided
    | RecoveryRequired  // a pending transaction must be recovered first, or its recovery did not complete
    | OutcomeUnknown    // neither outcome is decided yet
    | Inconsistent      // the markers contradict each other or the data
    | BadGlossary       // the glossary in use cannot be read, so nothing was begun

  datatype Outcome = Done | Raised(why: Why) | Killed

  /** The contents an add publishes: its fact file, and a glossary file only if it defines terms. */
  function Published(base: Files, fact: string, text: string, glossary: Option<string>): Files {
    var withFact := Put(base, FactFile(fact), Some(Text(text)));
    if glossary.Some? then Put(withFact, Glossary, AsText(glossary)) else withFact
  }

  class GraphStore {
    const schedule: nat -> Fault

    /** Whether a file's text re-hashes to the fact id it is stored under. */
    const intact: (string, string) -> bool

    /** Whether a glossary file's text parses strictly. */
    const parses: string -> bool

    var tick: nat
    var disk: Disk
    ghost var tx: Tx
    ghost var stage: Stage

    ghost predicate Valid()
      reads this
    {
      InStage(disk, tx, stage) && (Sealed(tx) || Unmarked(disk))
    }

    /** What the transaction writes can be read back. */
    predicate Sealed(t: Tx) {
      intact(t.fact, t.newFact) && (t.newGlossary.Some? ==> parses(t.newGlossary.value))
    }

    /** No marker is left and all contents are durable. */
    ghost predicate Clean(c: Files)
      reads this
    {
      && Valid() && stage == Idle && tx.before == c
      && disk.visible == c
      && forall p :: Durable(disk, p)
    }

    constructor (schedule: nat -> Fault, intact: (string, string) -> bool, parses: string -> bool)
      ensures Valid() && Clean(map[])
      ensures this.schedule == schedule && this.intact == intact && this.parses == parses
    {
      this.schedule, this.intact, this.parses := schedule, intact, parses;
      tick := 0;
      disk := Disk(map[], map[]);
      tx := Tx(0, "", map[], "", None);
      stage := Idle;
    }

    // ------------------------------------------------------- the schedule alone

    ghost predicate NoKill(from: nat, to: nat) { forall t :: from <= t < to ==> !schedule(t).Kill? }

    ghost predicate NoFault(from: nat, to: nat) { forall t :: from <= t < to ==> schedule(t).Fine? }

    /** What an answer says about the calls made since call `from`: killed exactly if one of them was the kill,
        done if none of them failed. */
    ghost predicate Answers(o: Outcome, from: nat)
      reads this`tick
    {
      from <= tick && (o.Killed? <==> !NoKill(from, tick)) && (NoFault(from, tick) ==> o.Done?)
    }

    /** The call after a barrier with one retry that begins at call `t`, if the barrier holds. */
    function AfterBarrier(t: nat): Option<nat> {
      if schedule(t).Fine? then Some(t + 1)
      else if schedule(t).Fails? && schedule(t + 1).Fine? then Some(t + 2)
      else None
    }

    /** The same for an atomic write: a barrier on the parent, the replacement, one barrier without retry. */
    function AfterWrite(t: nat): Option<nat> {
      var u := AfterBarrier(t);
      if u.Some? && schedule(u.value).Fine? && schedule(u.value + 1).Fine? then Some(u.value + 2) else None
    }

    function AfterBarriers(t: nat, n: nat): Option<nat> {
      if n == 0 then Some(t) else ThenBarrier(AfterBarriers(t, n - 1))
    }

    function AfterWrites(t: nat, n: nat): Option<nat> {
      if n == 0 then Some(t) else ThenWrite(AfterWrites(t, n - 1))
    }

    function ThenWrite(u: Option<nat>): Option<nat> { if u.Some? then AfterWrite(u.value) else None }

    function ThenBarrier(u: Option<nat>): Option<nat> { if u.Some? then AfterBarrier(u.value) else None }

    lemma Split(a: nat, b: nat, c: nat)
      requires a <= b <= c
      ensures NoKill(a, c) <==> NoKill(a, b) && NoKill(b, c)
      ensures NoFault(a, c) <==> NoFault(a, b) && NoFault(b, c)
    {}

    lemma BarriersInOrder(t: nat)
      ensures AfterBarriers(t, 2) == ThenBarrier(AfterBarrier(t))
      ensures AfterBarriers(t, 3) == ThenBarrier(AfterBarriers(t, 2))
    {
      assert AfterBarriers(t, 2) == ThenBarrier(AfterBarriers(t, 1)) == ThenBarrier(AfterBarrier(t));
    }

    // -------------------------------------------------------- system calls

    method NextFault() returns (f: Fault)
      modifies this`tick
      ensures f == schedule(old(tick)) && tick == old(tick) + 1
    {
      f := schedule(tick);
      tick := tick + 1;
    }

    /** A barrier that fails leaves every possibility open; one that holds settles its own directory only. */
    method Fsync(dir: Directory) returns (o: Outcome)
      requires Coherent(disk)
      modifies this`tick, this`disk
      ensures o.Raised? ==> o.why == IoError
      ensures Answers(o, old(tick)) && tick == old(tick) + 1 && (o.Done? <==> schedule(old(tick)).Fine?)
      ensures if o.Done? then ElsewhereSame(old(disk), dir, disk) else disk == old(disk)
      ensures Coherent(disk) && Shrunk(old(disk), disk)
      ensures o.Done? ==> forall p :: DirectoryOf(p) == dir ==> Durable(disk, p)
    {
      var f := NextFault();
      if f.Fine? {
        disk := Synced(disk, dir);
        o := Done;
      } else {
        o := if f.Kill? then Killed else Raised(IoError);
      }
    }

    method FsyncWithRetry(dir: Directory) returns (o: Outcome)
      requires Coherent(disk)
      modifies this`tick, this`disk
      ensures o.Raised? ==> o.why == IoError
      ensures Answers(o, old(tick))
      ensures o.Done? <==> AfterBarrier(old(tick)).Some?
      ensures o.Done? ==> tick == AfterBarrier(old(tick)).value
      ensures if o.Done? then ElsewhereSame(old(disk), dir, disk) else disk == old(disk)
      ensures Coherent(disk) && Shrunk(old(disk), disk)
      ensures o.Done? ==> forall p :: DirectoryOf(p) == dir ==> Durable(disk, p)
    {
      o := Fsync(dir);
      if o.Raised? {
        o := Fsync(dir);
      }
    }

    /** `os.replace` or `unlink`: visible at once, not yet durable. */
    method SetEntry(p: Path, v: Option<Data>) returns (o: Outcome)
      requires Coherent(disk)
      modifies this`tick, this`disk
      ensures o.Raised? ==> o.why == IoError
      ensures Answers(o, old(tick)) && tick == old(tick) + 1 && (o.Done? <==> schedule(old(tick)).Fine?)
      ensures Coherent(disk)
      ensures disk == if o.Done? then Changed(old(disk), p, v) else old(disk)
    {
      var f := NextFault();
      if f.Fine? {
        ChangedIsToward(disk, p, v);
        disk := Changed(disk, p, v);
        o := Done;
      } else {
        o := if f.Kill? then Killed else Raised(IoError);
      }
    }

    /** A write that fails may have happened or not, and nothing else in the directory became certain. */
    method AtomicWrite(p: Path, v: Data) returns (o: Outcome)
      requires Coherent(disk)
      modifies this`tick, this`disk
      ensures o.Raised? ==> o.why == IoError
      ensures Answers(o, old(tick))
      ensures o.Done? <==> AfterWrite(old(tick)).Some?
      ensures o.Done? ==> tick == AfterWrite(old(tick)).value
      ensures !o.Done? ==> NothingSettled(old(disk), DirectoryOf(p), disk)
      ensures Coherent(disk) && Toward(old(disk), p, Some(v), disk)
      ensures o.Done? ==> SettledAt(disk, p, Some(v))
    {
      o := FsyncWithRetry(ParentOf(DirectoryOf(p)));
      if !o.Done? { return; }
      o := SetEntry(p, Some(v));
      if !o.Done? { return; }
      o := Fsync(DirectoryOf(p));
    }

    method UnlinkDurable(p: Path) returns (o: Outcome)
      requires Coherent(disk)
      modifies this`tick, this`disk
      ensures o.Raised? ==> o.why == IoError
      ensures Answers(o, old(tick))
      ensures Coherent(disk) && Toward(old(disk), p, None, disk)
      ensures o.Done? ==> SettledAt(disk, p, None)
    {
      if p in disk.visible {
        o := SetEntry(p, None);
        if !o.Done? { return; }
      }
      o := FsyncWithRetry(DirectoryOf(p));
    }

    // ------------------------------------------------------------ recovery

    /** What no recovery ever answers. */
    static predicate IsOdd(o: Outcome) {
      o == Raised(Inconsistent) || o == Raised(OutcomeUnknown) || o == Raised(BadGlossary)
    }

    method SetData(p: Path, t: Option<string>) returns (o: Outcome)
      requires Coherent(disk)
      modifies this`tick, this`disk
      ensures o.Raised? ==> o.why == IoError
      ensures Answers(o, old(tick))
      ensures Coherent(disk) && Toward(old(disk), p, AsText(t), disk)
      ensures o.Done? ==> SettledAt(disk, p, AsText(t))
    {
      match t
      case Some(text) => o := AtomicWrite(p, Text(text));
      case None => o := UnlinkDurable(p);
    }

    method RestoreSnapshot(mark: Data) returns (o: Outcome)
      requires Valid() && Sealed(tx) && KeepsOld(stage) && tx.Prep() == Some(mark)
      modifies this`tick, this`disk
      ensures o.Raised? ==> o.why == IoError
      ensures Answers(o, old(tick))
      ensures Valid()
      ensures o.Done? ==> forall p :: IsData(p) ==> Possible(disk, p) == {Get(tx.before, p)}
      ensures forall p :: !IsData(p) ==>
        Get(disk.visible, p) == Get(old(disk).visible, p) && Possible(disk, p) <= Possible(old(disk), p)
    {
      ghost var d0 := disk;
      o := SetData(FactFile(mark.fact), mark.previousFact);
      TowardKeepsStage(d0, tx, stage, FactFile(mark.fact), AsText(mark.previousFact), disk);
      if !o.Done? { return; }
      ghost var d1 := disk;
      assert Durable(d1, FactFile(tx.fact));
      o := SetData(Glossary, mark.previousGlossary);
      TowardKeepsStage(d1, tx, stage, Glossary, AsText(mark.previousGlossary), disk);
      if o.Done? {
        assert Durable(disk, Glossary);
        assert Possible(disk, FactFile(tx.fact)) <= Possible(d1, FactFile(tx.fact));
        forall p | IsData(p) ensures Possible(disk, p) == {Get(tx.before, p)} {
          if p != Glossary && p != FactFile(tx.fact) {
            forall v | v in Possible(disk, p) ensures v == Get(tx.before, p) {
              assert Allowed(tx, stage, p, v);
            }
          }
          StillSettled(disk, p, Get(tx.before, p));
        }
      }
    }

    /** Idempotently finish a rollback whose intent is durable. */
    method RecoverAborted() returns (o: Outcome)
      requires Valid() && Sealed(tx) && stage == RollingBack
      modifies this`tick, this`disk, this`stage
      ensures Valid() && KeepsOld(stage)
      ensures o.Done? ==> Clean(tx.before)
      ensures !IsOdd(o)
      ensures Answers(o, old(tick))
    {
      assert Get(disk.visible, Prepared) in Possible(disk, Prepared);
      assert Get(disk.visible, RollbackRequired) in Possible(disk, RollbackRequired);
      var prepared := Get(disk.visible, Prepared);
      var aborted := Get(disk.visible, RollbackRequired);
      if prepared.None? || !prepared.value.PreparedMark? || aborted.None? || !aborted.value.RollbackMark?
         || prepared.value.tid != aborted.value.tid || prepared.value.fact != aborted.value.fact {
        return Raised(Inconsistent);
      }
      o := UndoData(prepared.value);
      if !o.Done? { return; }
      ghost var d := disk;
      o := UnlinkDurable(RollbackRequired);
      TowardKeepsStage(d, tx, stage, RollbackRequired, None, disk);
      if !o.Done? { return; }
      assert Durable(disk, RollbackRequired);
      Restage(disk, tx, Clearing, Idle);
      stage := Idle;
      o := DropPrepared();
    }

    /** Remove an uncertain commit marker and restore the snapshot under a durable rollback marker. */
    method UndoData(mark: Data) returns (o: Outcome)
      requires Valid() && Sealed(tx) && stage == RollingBack && tx.Prep() == Some(mark)
      modifies this`tick, this`disk, this`stage
      ensures Valid() && KeepsOld(stage)
      ensures o.Done? ==> stage == Clearing
      ensures !IsOdd(o)
      ensures Answers(o, old(tick))
    {
      ghost var d0 := disk;
      o := UnlinkDurable(Committed);
      TowardKeepsStage(d0, tx, stage, Committed, None, disk);
      if o.Killed? { return; }  // an exception is ignored here
      o := RestoreSnapshot(mark);
      if !o.Done? { return; }
      if Committed in disk.visible {
        return Raised(RecoveryRequired);
      }
      o := SettleUndo();
    }

    /** With the old data durable and no commit marker visible, one root barrier settles the rollback. */
    method SettleUndo() returns (o: Outcome)
      requires Valid() && Sealed(tx) && stage == RollingBack && Committed !in disk.visible
      requires forall p :: IsData(p) ==> Possible(disk, p) == {Get(tx.before, p)}
      modifies this`tick, this`disk, this`stage
      ensures Valid() && KeepsOld(stage)
      ensures o.Done? ==> stage == Clearing
      ensures !IsOdd(o)
      ensures Answers(o, old(tick))
    {
      ghost var d1 := disk;
      o := Fsync(GraphRoot);
      ShrunkKeepsStage(d1, tx, stage, disk);
      if o.Raised? { return Raised(RecoveryRequired); }
      if o.Killed? { return; }
      assert Durable(disk, Committed);
      forall p, v | v in Possible(disk, p) ensures Allowed(tx, Clearing, p, v) {
        assert v in Possible(d1, p);
        assert Allowed(tx, RollingBack, p, v);
      }
      Restage(disk, tx, RollingBack, Clearing);
      stage := Clearing;
    }

    /** The last step of every rollback: the old contents are durable, so the snapshot may go. */
    method DropPrepared() returns (o: Outcome)
      requires Valid() && Sealed(tx) && stage == Idle
      modifies this`tick, this`disk
      ensures Valid()
      ensures o.Done? ==> Clean(tx.before)
      ensures !IsOdd(o)
      ensures Answers(o, old(tick))
    {
      ghost var d0 := disk;
      o := UnlinkDurable(Prepared);
      TowardKeepsStage(d0, tx, stage, Prepared, None, disk);
      if o.Done? {
        assert Durable(disk, Prepared) && Durable(disk, Committed) && Durable(disk, RollbackRequired);
        assert Allowed(tx, Idle, Committed, Get(disk.visible, Committed));
        NothingPending(disk, tx, Idle);
      }
    }

    /** Roll back a prepared add that has no other marker. */
    method UndoPrepared(mark: Data) returns (o: Outcome)
      requires Valid() && Sealed(tx) && KeepsOld(stage) && tx.Prep() == Some(mark)
      requires Possible(disk, RollbackRequired) <= {None} && Possible(disk, Committed) <= {None}
      modifies this`tick, this`disk, this`stage
      ensures Valid() && KeepsOld(stage)
      ensures o.Done? ==> Clean(tx.before)
      ensures !IsOdd(o)
      ensures Answers(o, old(tick))
    {
      o := RestoreSnapshot(mark);
      if o.Done? {
        RestoredMeansIdle(disk, tx, stage);
        stage := Idle;
        o := DropPrepared();
      }
    }

    /** Best-effort removal of a committed transaction's markers; never turns it into a rollback. */
    method CleanupCommitted() returns (o: Outcome, clean: bool)
      requires Valid() && Sealed(tx) && KeepsNew(stage)
      modifies this`tick, this`disk, this`stage
      ensures Valid() && KeepsNew(stage)
      ensures o.Done? || o.Killed?
      ensures clean ==> o.Done? && disk.visible == tx.After() && forall p :: Durable(disk, p)
      ensures Answers(o, old(tick)) && (NoFault(old(tick), tick) ==> clean)
    {
      clean := false;
      o := RetireSnapshot();
      if o.Killed? { return; }
      if o.Raised? { return Done, false; }
      ghost var d2 := disk;
      o := UnlinkDurable(Committed);
      TowardKeepsStage(d2, tx, stage, Committed, None, disk);
      if o.Raised? {
        if Committed in disk.visible { return Done, false; }
        ghost var d3 := disk;
        o := FsyncWithRetry(GraphRoot);
        ShrunkKeepsStage(d3, tx, stage, disk);
      }
      if o.Killed? { return; }
      if o.Raised? { return Done, false; }
      assert Durable(disk, Prepared) && Durable(disk, Committed) && Durable(disk, RollbackRequired);
      clean := !(Prepared in disk.visible || Committed in disk.visible);
      if clean { NothingPending(disk, tx, Retiring); }
    }

    /** The prepared snapshot goes first, durably, so that a crash cannot turn the commit into a rollback. */
    method RetireSnapshot() returns (o: Outcome)
      requires Valid() && Sealed(tx) && KeepsNew(stage)
      modifies this`tick, this`disk, this`stage
      ensures Valid() && KeepsNew(stage)
      ensures o.Done? ==> stage == Retiring
      ensures Answers(o, old(tick))
    {
      ghost var d0 := disk;
      if Prepared in disk.visible {
        o := UnlinkDurable(Prepared);
        TowardKeepsStage(d0, tx, stage, Prepared, None, disk);
        if o.Raised? {
          if Prepared in disk.visible { return; }
          ghost var d1 := disk;
          o := FsyncWithRetry(GraphRoot);
          ShrunkKeepsStage(d1, tx, stage, disk);
        }
      } else {
        o := FsyncWithRetry(GraphRoot);
        ShrunkKeepsStage(d0, tx, stage, disk);
      }
      if o.Done? {
        assert Durable(disk, Prepared);
        Restage(disk, tx, stage, Retiring);
        stage := Retiring;
      }
    }

    lemma MarkedIsSealed()
      requires Valid()
      ensures Prepared in disk.visible || Committed in disk.visible || RollbackRequired in disk.visible ==> Sealed(tx)
    {
      if Unmarked(disk) {
        assert Get(disk.visible, Prepared) in Possible(disk, Prepared);
        assert Get(disk.visible, Committed) in Possible(disk, Committed);
        assert Get(disk.visible, RollbackRequired) in Possible(disk, RollbackRequired);
        assert Get(disk.visible, Prepared) == None && Get(disk.visible, Committed) == None;
        assert Get(disk.visible, RollbackRequired) == None;
      }
    }

    /** The settled disk becomes the starting point of the next transaction. */
    ghost method Settle(c: Files)
      requires disk.visible == c && (forall p :: Durable(disk, p))
      requires forall p :: p in c ==> IsData(p) && c[p].Text?
      modifies this`tx, this`stage
      ensures Clean(c)
    {
      tx := Tx(0, "", c, "", None);
      stage := Idle;
      FreshStage(disk, tx);
      assert Durable(disk, Prepared) && Durable(disk, Committed) && Durable(disk, RollbackRequired);
    }

    /** `_rollback_pending_add_unlocked`.  Behind the root barrier the outcome is already decided
        by what is visible, and recovery reaches it or leaves it decided. */
    method RollbackPending() returns (o: Outcome)
      requires Valid() && MarkersDurable(disk)
      modifies this
      ensures Valid() && MustBecome(disk, Logical(old(disk).visible))
      ensures o.Done? ==> Clean(Logical(old(disk).visible))
      ensures !IsOdd(o)
      ensures Answers(o, old(tick))
      ensures NothingMarked(old(disk).visible) ==> o.Done? && tick == old(tick)
    {
      DecidedStage(disk, tx, stage);
      stage := Decided(disk, stage);
      ghost var c := if KeepsOld(stage) then tx.before else tx.After();
      StageMust(disk, tx, stage);
      VisibleMarkers(disk, tx, stage);
      var aborted, committed, prepared :=
        Get(disk.visible, RollbackRequired), Get(disk.visible, Committed), Get(disk.visible, Prepared);
      MarkedIsSealed();
      if aborted.Some? {
        o := RecoverAborted();
      } else if committed.Some? {
        CommittedReads(disk, tx, stage);
        if !CommitIsExact(disk.visible, prepared, committed.value) || !CommitReads(disk.visible, committed.value) {
          return Raised(Inconsistent);
        }
        var clean;
        o, clean := CleanupCommitted();
        if clean { Settle(c); }
        else if o.Done? { o := Raised(RecoveryRequired); }
      } else if prepared.Some? {
        o := UndoPrepared(prepared.value);
      } else {
        NothingPending(disk, tx, stage);
        Settle(c);
        o := Done;
      }
      StageMust(disk, tx, stage);
    }

    /** `_validate_committed_add_unlocked`: the committed bytes are exactly the ones on disk. */
    static predicate CommitIsExact(files: Files, prepared: Option<Data>, committed: Data) {
      && committed.CommittedMark?
      && (prepared.Some? ==>
            && prepared.value.PreparedMark?
            && prepared.value.tid == committed.tid && prepared.value.fact == committed.fact
            && prepared.value.factHash == committed.factHash
            && prepared.value.glossaryHash == committed.glossaryHash)
      && (var fact := FromText(Get(files, FactFile(committed.fact)));
          fact.Some? && Sha256(fact.value) == committed.factHash)
      && (match committed.glossaryHash
          case None => Glossary !in files
          case Some(h) => var g := FromText(Get(files, Glossary)); g.Some? && Sha256(g.value) == h)
    }

    /** ... and the committed fact and glossary read back. */
    predicate CommitReads(files: Files, committed: Data)
      requires committed.CommittedMark?
    {
      && (var fact := FromText(Get(files, FactFile(committed.fact))); fact.Some? && intact(committed.fact, fact.value))
      && (committed.glossaryHash.Some? ==> var g := FromText(Get(files, Glossary)); g.Some? && parses(g.value))
    }

    lemma CommittedReads(d: Disk, t: Tx, s: Stage)
      requires InStage(d, t, s) && MarkersDurable(d) && KeepsNew(s) && (Sealed(t) || Unmarked(d))
      requires Committed in d.visible
      ensures Sealed(t) && d.visible[Committed].CommittedMark? && CommitReads(d.visible, d.visible[Committed])
    {
      assert Get(d.visible, Committed) in Possible(d, Committed);
      assert Allowed(t, s, Committed, Get(d.visible, Committed));
      assert Get(d.visible, FactFile(t.fact)) in Possible(d, FactFile(t.fact));
      assert Allowed(t, s, FactFile(t.fact), Get(d.visible, FactFile(t.fact)));
      assert Get(d.visible, Glossary) in Possible(d, Glossary);
      assert Allowed(t, s, Glossary, Get(d.visible, Glossary));
    }

    // ------------------------------------------------------------- mutation

    /** Take the graph lock, whose directory is first made durable in its parent. */
    method LockGraph() returns (o: Outcome)
      requires Valid()
      modifies this`tick, this`disk
      ensures Valid() && Shrunk(old(disk), disk)
      ensures o.Raised? ==> o.why == IoError
      ensures Answers(o, old(tick))
      ensures o.Done? <==> AfterBarrier(old(tick)).Some?
      ensures o.Done? ==> tick == AfterBarrier(old(tick)).value
    {
      o := FsyncWithRetry(ProjectRoot);
      ShrunkKeepsStage(old(disk), tx, stage, disk);
    }

    /** The mutation lock: behind its root barrier every earlier marker is durably there or gone. */
    method LockForMutation() returns (o: Outcome)
      requires Valid()
      modifies this`tick, this`disk
      ensures Valid() && Shrunk(old(disk), disk)
      ensures o.Raised? ==> o.why == IoError || o.why == RecoveryRequired
      ensures Answers(o, old(tick))
      ensures o.Done? ==> MarkersDurable(disk)
      ensures o.Done? <==> AfterBarriers(old(tick), 2).Some?
      ensures o.Done? ==> tick == AfterBarriers(old(tick), 2).value
    {
      BarriersInOrder(tick);
      o := LockGraph();
      if !o.Done? { return; }
      ghost var d := disk;
      o := FsyncWithRetry(GraphRoot);
      ShrunkKeepsStage(d, tx, stage, disk);
      if o.Raised? { return Raised(RecoveryRequired); }
      if o.Done? { assert Durable(disk, Prepared) && Durable(disk, Committed) && Durable(disk, RollbackRequired); }
    }

    /** Take the mutation lock and finish any pending add.  Only a fault can stop it. */
    method Begin() returns (o: Outcome)
      requires Valid()
      modifies this
      ensures Valid() && (forall c :: MayBecome(disk, c) ==> MayBecome(old(disk), c))
      ensures forall c :: MustBecome(old(disk), c) ==> MustBecome(disk, c)
      ensures o.Done? ==> Clean(disk.visible) && MayBecome(old(disk), disk.visible)
      ensures MayBecome(disk, Logical(old(disk).visible))
      ensures !IsOdd(o)
      ensures Answers(o, old(tick))
      ensures NothingMarked(old(disk).visible) ==>
        (o.Done? <==> AfterBarriers(old(tick), 2).Some?) && (o.Done? ==> tick == AfterBarriers(old(tick), 2).value)
    {
      o := LockForMutation();
      ShrunkNarrows(old(disk), disk);
      VisibleSurvives(disk);
      if !o.Done? { return; }
      ghost var d1, t1 := disk, tick;
      o := RollbackPending();
      Split(old(tick), t1, tick);
      VisibleSurvives(disk);
      MustMeansOnly(disk, Logical(d1.visible));
    }

    function AfterData(t: nat, definesTerms: bool): Option<nat> {
      if definesTerms then ThenWrite(AfterWrite(t)) else AfterWrite(t)
    }

    function AfterPrepare(t: nat, definesTerms: bool): Option<nat> {
      var u := AfterWrite(t); if u.Some? then AfterData(u.value, definesTerms) else None
    }

    /** Write the prepared marker and then the new data. */
    method Prepare(mark: Data, fact: string, text: string, glossary: Option<string>) returns (o: Outcome)
      requires Valid() && Sealed(tx) && stage == Idle && MarkersDurable(disk) && disk.visible == tx.before
      requires tx.Prep() == Some(mark) && tx.fact == fact && tx.newFact == text
      requires tx.newGlossary == if glossary.Some? then glossary else tx.OldGlossary()
      modifies this
      ensures Valid()
      ensures o.Done? ==> tx == old(tx) && stage == Committing
      ensures !o.Done? ==> MustBecome(disk, old(tx.before)) && !IsOdd(o)
      ensures Answers(o, old(tick))
      ensures o.Done? ==> Possible(disk, Committed) == {None}
      ensures var u := AfterPrepare(old(tick), glossary.Some?);
        (o.Done? <==> u.Some?) && (o.Done? ==> tick == u.value)
    {
      ghost var d0 := disk;
      OnlyValue(disk, tx, Idle, Glossary, Get(tx.before, Glossary));
      o := AtomicWrite(Prepared, mark);
      TowardKeepsStage(d0, tx, stage, Prepared, Some(mark), disk);
      StageMust(disk, tx, stage);
      if !o.Done? { return; }
      assert Durable(disk, Prepared);
      Restage(disk, tx, Idle, Writing);
      stage := Writing;
      assert Possible(disk, Glossary) <= Possible(d0, Glossary);
      o := WriteData(fact, text, glossary);
    }

    method WriteData(fact: string, text: string, glossary: Option<string>) returns (o: Outcome)
      requires Valid() && Sealed(tx) && stage == Writing
      requires tx.fact == fact && tx.newFact == text
      requires tx.newGlossary == if glossary.Some? then glossary else tx.OldGlossary()
      requires Possible(disk, Glossary) <= {Get(tx.before, Glossary)}
      modifies this
      ensures Valid()
      ensures o.Done? ==> tx == old(tx) && stage == Committing
      ensures !o.Done? ==> MustBecome(disk, old(tx.before)) && !IsOdd(o)
      ensures Answers(o, old(tick))
      ensures o.Done? ==> Possible(disk, Committed) == {None}
      ensures var u := AfterData(old(tick), glossary.Some?);
        (o.Done? <==> u.Some?) && (o.Done? ==> tick == u.value)
    {
      ghost var d0 := disk;
      o := AtomicWrite(FactFile(fact), Text(text));
      TowardKeepsStage(d0, tx, stage, FactFile(fact), Some(Text(text)), disk);
      ghost var d1 := disk;
      if o.Done? {
        assert Durable(disk, FactFile(fact));
        assert Possible(disk, Glossary) <= Possible(d0, Glossary);
        if glossary.Some? {
          o := AtomicWrite(Glossary, Text(glossary.value));
          TowardKeepsStage(d1, tx, stage, Glossary, AsText(glossary), disk);
          if o.Done? { assert Durable(disk, Glossary); }
        }
      }
      StageMust(disk, tx, stage);
      match o {
        case Killed => return;
        case Raised(_) => o := RollbackAfterFailure();
        case Done =>
          assert Possible(disk, FactFile(fact)) <= Possible(d1, FactFile(fact));
          OnlyValue(disk, tx, Writing, Committed, None);
          NewDataIsDurable(disk, tx);
          stage := Committing;
      }
    }

    /** The data bytes could not be written: roll the prepared transaction back. */
    method RollbackAfterFailure() returns (o: Outcome)
      requires Valid() && Sealed(tx) && stage == Writing
      modifies this
      ensures Valid() && MustBecome(disk, old(tx.before))
      ensures old(tick) <= tick && (o.Killed? <==> !NoKill(old(tick), tick))
      ensures o.Killed? || o == Raised(IoError) || o == Raised(RecoveryRequired)
    {
      assert MarkersDurable(disk) by {
        OnlyValue(disk, tx, Writing, Prepared, tx.Prep());
        OnlyValue(disk, tx, Writing, Committed, None);
        OnlyValue(disk, tx, Writing, RollbackRequired, None);
      }
      VisibleMeans(disk, tx, stage);
      o := RollbackPending();
      if o.Done? { o := Raised(IoError); }
      else if o.Raised? { o := Raised(RecoveryRequired); }
    }

    /** What an answer says about the disk: `after` if done, `before` for an error that is definite; and an error is
        never answered once the old contents cannot come back. */
    ghost predicate Decides(o: Outcome, before: Files, after: Files)
      reads this`disk
    {
      && (o.Done? ==> MustBecome(disk, after))
      && (o.Raised? && o.why != OutcomeUnknown ==> MustBecome(disk, before))
      && (o.Raised? ==> MayBecome(disk, before))
      && (forall c :: MayBecome(disk, c) ==> c == before || c == after)
    }

    lemma DecidedOld(o: Outcome, before: Files, after: Files)
      requires Coherent(disk) && MustBecome(disk, before) && !o.Done?
      ensures Decides(o, before, after)
    {
      MustMeansOnly(disk, before);
      VisibleSurvives(disk);
    }

    /** Publish the commit marker.  If that is uncertain, record rollback intent and undo.  An error is only
        answered while the old contents can still come back, so never once the marker is durable. */
    method Commit(committed: Data, rollback: Data) returns (o: Outcome)
      requires Valid() && Sealed(tx) && stage == Committing && tx.Comm() == Some(committed)
      requires tx.Abort() == Some(rollback)
      requires Possible(disk, RollbackRequired) == {None} && None in Possible(disk, Committed)
      modifies this`tick, this`disk, this`stage
      ensures Valid()
      ensures Decides(o, tx.before, tx.After())
      ensures o != Raised(Inconsistent) && o != Raised(BadGlossary)
      ensures Answers(o, old(tick))
      ensures o.Done? <==> AfterWrite(old(tick)).Some? && NoKill(old(tick), tick)
    {
      ghost var d0 := disk;
      o := AtomicWrite(Committed, committed);
      TowardKeepsStage(d0, tx, stage, Committed, tx.Comm(), disk);
      StageMust(disk, tx, stage);
      ghost var t1 := tick;
      match o {
        case Killed => return;
        case Raised(_) =>
          o := UndoCommit(rollback);
          Split(old(tick), t1, tick);
        case Done =>
          assert Durable(disk, Committed);
          Restage(disk, tx, Committing, Finishing);
          stage := Finishing;
          var clean;
          o, clean := CleanupCommitted();  // its verdict is ignored: the commit is durable
          Split(old(tick), t1, tick);
          StageMust(disk, tx, stage);
      }
    }

    /** The commit marker is not durable: make rollback intent durable and act on it. */
    method UndoCommit(rollback: Data) returns (o: Outcome)
      requires Valid() && Sealed(tx) && stage == Committing && tx.Abort() == Some(rollback)
      requires Possible(disk, RollbackRequired) == {None} && None in Possible(disk, Committed)
      modifies this`tick, this`disk, this`stage
      ensures Valid() && !o.Done?
      ensures Decides(o, tx.before, tx.After())
      ensures old(tick) <= tick && (o.Killed? <==> !NoKill(old(tick), tick))
      ensures o.Raised? ==> o.why == IoError || o.why == RecoveryRequired || o.why == OutcomeUnknown
    {
      o := RecordRollback(rollback);
      StageMust(disk, tx, stage);
      if o.Raised? { StillUndecided(disk, tx, stage); }
      if !o.Done? { return; }
      ghost var t1 := tick;
      o := RecoverAborted();
      Split(old(tick), t1, tick);
      o := if o.Done? then Raised(IoError) else if o.Raised? then Raised(RecoveryRequired) else Killed;
      StageMust(disk, tx, stage);
      VisibleSurvives(disk);
    }

    /** Make rollback intent durable before acting on it; otherwise nothing is decided. */
    method RecordRollback(rollback: Data) returns (o: Outcome)
      requires Valid() && Sealed(tx) && stage == Committing && tx.Abort() == Some(rollback)
      requires Possible(disk, RollbackRequired) == {None}
      modifies this`tick, this`disk, this`stage
      ensures Valid()
      ensures o.Done? ==> stage == RollingBack
      ensures o.Raised? ==> o.why == OutcomeUnknown && stage in {Committing, Aborting}
      ensures o.Raised? ==> Possible(old(disk), Committed) <= Possible(disk, Committed)
      ensures Answers(o, old(tick))
    {
      ghost var d0 := disk;
      o := AtomicWrite(RollbackRequired, rollback);
      RollbackAppears(d0, tx, disk);
      stage := if RollbackRequired in disk.visible then Aborting else Committing;
      if o.Killed? { return; }
      if o.Raised? {
        if Get(disk.visible, RollbackRequired) != Some(rollback) { return Raised(OutcomeUnknown); }
        ghost var d1 := disk;
        o := Fsync(GraphRoot);
        ShrunkKeepsStage(d1, tx, stage, disk);
        if o.Raised? { return Raised(OutcomeUnknown); }
        if o.Killed? { return; }
      }
      assert Durable(disk, RollbackRequired);
      Restage(disk, tx, Aborting, RollingBack);
      stage := RollingBack;
    }

    /** The text is a serialised fact stored under its own id, and the glossary a dumped one. */
    predicate Writable(fact: string, text: string, glossary: Option<string>) {
      intact(fact, text) && (glossary.Some? ==> parses(glossary.value))
    }

    predicate GlossaryReads(files: Files) {
      var g := FromText(Get(files, Glossary));
      g.Some? ==> parses(g.value)
    }

    /** Calls from `t` on that let a fresh add through: both locks and the facts directory, then the prepared marker,
        the fact, the glossary if it changes, and the commit marker. */
    predicate LetsThrough(t: nat, definesTerms: bool) {
      var u := AfterBarriers(t, 3);
      u.Some? && AfterWrites(u.value, Writes(definesTerms)).Some?
    }

    static function Writes(definesTerms: bool): nat { if definesTerms then 4 else 3 }

    /** `add`: the new fact and glossary bytes, all or nothing.  It answers Done whenever nothing fails and the glossary
        in use reads, and an error only while the old contents can still come back. */
    method Add(tid: nat, fact: string, text: string, glossary: Option<string>) returns (o: Outcome, ghost base: Files)
      requires Valid() && Writable(fact, text, glossary)
      modifies this
      ensures Valid()
      ensures
        && MayBecome(old(disk), base)
        && (o.Done? ==> MustBecome(disk, Published(base, fact, text, glossary)))
        && (forall c :: MayBecome(disk, c) ==> MayBecome(old(disk), c) || c == Published(base, fact, text, glossary))
        && (o.Raised? && o.why != OutcomeUnknown ==> forall c :: MayBecome(disk, c) ==> MayBecome(old(disk), c))
        && (forall c :: MustBecome(old(disk), c) ==> c == base)
        && (o.Raised? ==> MayBecome(disk, base))
      ensures o != Raised(Inconsistent)
      ensures o == Raised(BadGlossary) ==> !GlossaryReads(base)
      ensures old(tick) <= tick && (o.Killed? <==> !NoKill(old(tick), tick))
      ensures NoFault(old(tick), tick) ==> o == if GlossaryReads(base) then Done else Raised(BadGlossary)
      ensures NothingMarked(old(disk).visible) ==>
        (o.Done? <==> GlossaryReads(base) && LetsThrough(old(tick), glossary.Some?) && NoKill(old(tick), tick))
    {
      base := Logical(disk.visible);
      VisibleSurvives(disk);
      BarriersInOrder(tick);
      o := Begin();
      if !o.Done? { return; }
      base := disk.visible;
      ghost var d1, t1 := disk, tick;
      StageMust(disk, tx, stage);
      VisibleSurvives(disk);
      MustMeansOnly(disk, base);
      o := AddToClean(tid, fact, text, glossary);
      Split(old(tick), t1, tick);
      if o.Raised? && o.why != OutcomeUnknown { MustMeansOnly(disk, base); }
    }

    /** `_add_unlocked`, once nothing is pending. */
    method AddToClean(tid: nat, fact: string, text: string, glossary: Option<string>) returns (o: Outcome)
      requires Clean(disk.visible) && Writable(fact, text, glossary)
      modifies this
      ensures Valid()
      ensures Decides(o, old(disk).visible, Published(old(disk).visible, fact, text, glossary))
      ensures o != Raised(Inconsistent)
      ensures o == Raised(BadGlossary) <==> !GlossaryReads(old(disk).visible)
      ensures if o == Raised(BadGlossary) then tick == old(tick) else Answers(o, old(tick))
      ensures var u := AfterBarrier(old(tick));
        o.Done? <==> && GlossaryReads(old(disk).visible) && NoKill(old(tick), tick)
                     && u.Some? && AfterWrites(u.value, Writes(glossary.Some?)).Some?
    {
      ghost var after := Published(disk.visible, fact, text, glossary);
      StageMust(disk, tx, stage);
      DecidedOld(Raised(BadGlossary), disk.visible, after);
      if !GlossaryReads(disk.visible) { return Raised(BadGlossary); }
      o := MakeFactsDir();
      ghost var t1 := tick;
      if !o.Done? {
        DecidedOld(o, disk.visible, after);
        return;
      }
      o := Publish(tid, fact, text, glossary);
      Split(old(tick), t1, tick);
    }

    /** `_mkdir_durable` of the facts directory: a barrier on its parent. */
    method MakeFactsDir() returns (o: Outcome)
      requires Clean(disk.visible)
      modifies this`tick, this`disk
      ensures disk.visible == old(disk).visible && Clean(disk.visible) && MustBecome(disk, disk.visible)
      ensures o.Raised? ==> o.why == IoError
      ensures Answers(o, old(tick))
      ensures o.Done? <==> AfterBarrier(old(tick)).Some?
      ensures o.Done? ==> tick == AfterBarrier(old(tick)).value
    {
      ghost var d := disk;
      o := FsyncWithRetry(GraphRoot);
      ShrunkKeepsStage(d, tx, stage, disk);
      StageMust(disk, tx, stage);
      forall p ensures Durable(disk, p) { assert Durable(d, p); StillSettled(disk, p, Get(d.visible, p)); }
    }

    /** Done exactly when every write goes through and the cleanup after the last one is not killed. */
    method Publish(tid: nat, fact: string, text: string, glossary: Option<string>) returns (o: Outcome)
      requires Clean(disk.visible) && Writable(fact, text, glossary) && GlossaryReads(disk.visible)
      modifies this
      ensures Valid()
      ensures Decides(o, old(disk).visible, Published(old(disk).visible, fact, text, glossary))
      ensures o != Raised(Inconsistent) && o != Raised(BadGlossary)
      ensures Answers(o, old(tick))
      ensures o.Done? <==> AfterWrites(old(tick), Writes(glossary.Some?)).Some? && NoKill(old(tick), tick)
    {
      var previousFact := FromText(Get(disk.visible, FactFile(fact)));
      var previousGlossary := FromText(Get(disk.visible, Glossary));
      var expected := if glossary.Some? then glossary else previousGlossary;
      var glossaryHash := if expected.Some? then Some(Sha256(expected.value)) else None;
      var mark := PreparedMark(tid, fact, previousFact, previousGlossary, Sha256(text), glossaryHash);
      var committed := CommittedMark(tid, fact, Sha256(text), glossaryHash);
      tx := Tx(tid, fact, disk.visible, text, expected);
      FreshStage(disk, tx);
      PublishedIsAfter(tx, glossary);
      WritesInOrder(tick, glossary.Some?);
      o := Transact(mark, committed, RollbackMark(tid, fact), fact, text, glossary);
    }

    lemma WritesInOrder(t: nat, definesTerms: bool)
      ensures AfterWrites(t, Writes(definesTerms)) == ThenWrite(AfterPrepare(t, definesTerms))
    {
      assert AfterWrites(t, 2) == ThenWrite(AfterWrites(t, 1)) == ThenWrite(AfterWrite(t));
      assert AfterWrites(t, 3) == ThenWrite(AfterWrites(t, 2));
      assert AfterWrites(t, 4) == ThenWrite(AfterWrites(t, 3));
    }

    /** The journalled transaction itself: prepare, then commit. */
    method Transact(mark: Data, committed: Data, rollback: Data, fact: string, text: string, glossary: Option<string>)
        returns (o: Outcome)
      requires Valid() && Sealed(tx) && stage == Idle && MarkersDurable(disk) && disk.visible == tx.before
      requires tx.Prep() == Some(mark) && tx.Comm() == Some(committed) && tx.Abort() == Some(rollback)
      requires tx.fact == fact && tx.newFact == text
      requires tx.newGlossary == if glossary.Some? then glossary else tx.OldGlossary()
      modifies this
      ensures Valid()
      ensures Decides(o, old(tx).before, old(tx).After())
      ensures o != Raised(Inconsistent) && o != Raised(BadGlossary)
      ensures Answers(o, old(tick))
      ensures o.Done? <==> ThenWrite(AfterPrepare(old(tick), glossary.Some?)).Some? && NoKill(old(tick), tick)
    {
      o := Prepare(mark, fact, text, glossary);
      ghost var t1 := tick;
      if !o.Done? {
        DecidedOld(o, old(tx).before, old(tx).After());
        return;
      }
      OnlyValue(disk, tx, Committing, RollbackRequired, None);
      o := Commit(committed, rollback);
      Split(old(tick), t1, tick);
    }

    // ---------------------------------------------------------------- reads

    /** No pending revocation, no rollback in progress, and no add that is prepared but not committed. */
    predicate Readable(files: Files, revoking: bool) {
      !revoking && RollbackRequired !in files && (Prepared in files ==> Committed in files)
    }

    /** A public read: fail closed on a pending add or revocation, and make a visible commit marker
        durable before trusting it. */
    method Snapshot(revoking: bool) returns (o: Outcome, files: Files)
      requires Valid()
      modifies this`tick, this`disk, this`stage
      ensures Valid() && disk.visible == old(disk).visible
      ensures forall c :: MayBecome(disk, c) ==> MayBecome(old(disk), c)
      ensures forall c :: MustBecome(old(disk), c) ==> MustBecome(disk, c)
      ensures o.Done? ==> !revoking && files == DataOf(disk.visible) && MustBecome(disk, files)
      ensures o != Raised(Inconsistent)
      ensures old(tick) <= tick && (o.Killed? <==> !NoKill(old(tick), tick))
      ensures o.Done? ==> Readable(disk.visible, revoking)
      ensures NoFault(old(tick), tick) ==>
        o == if Readable(disk.visible, revoking) then Done else Raised(RecoveryRequired)
    {
      files := DataOf(disk.visible);
      o := LockGraph();
      ghost var d0 := disk;
      ShrunkNarrows(old(disk), disk);
      if !o.Done? { return; }
      var prepared, aborted, committed :=
        Get(disk.visible, Prepared), Get(disk.visible, RollbackRequired), Get(disk.visible, Committed);
      if aborted.Some? {
        return Raised(RecoveryRequired), files;
      }
      if committed.Some? {
        o := FsyncWithRetry(GraphRoot);
        ShrunkKeepsStage(d0, tx, stage, disk);
        ShrunkNarrows(d0, disk);
        if o.Raised? { return Raised(RecoveryRequired), files; }
        if o.Killed? { return; }
        assert Durable(disk, Prepared) && Durable(disk, Committed) && Durable(disk, RollbackRequired);
        DecidedStage(disk, tx, stage);
        stage := Decided(disk, stage);
        VisibleMarkers(disk, tx, stage);
        CommittedReads(disk, tx, stage);
        if !CommitIsExact(disk.visible, prepared, committed.value) || !CommitReads(disk.visible, committed.value) {
          return Raised(Inconsistent), files;
        }
      } else if prepared.Some? {
        return Raised(RecoveryRequired), files;
      } else {
        NoMarkersVisible(disk, tx, stage);
      }
      StageMust(disk, tx, stage);
      VisibleMeans(disk, tx, stage);
      o := if revoking then Raised(RecoveryRequired) else Done;
    }

    // ------------------------------------------------------------ histories

    /** The machine loses power: each loose entry independently keeps one possible value. */
    method PowerLoss(pick: map<Path, Option<Data>>)
      requires Valid()
      modifies this`disk, this`stage
      ensures Valid()
      ensures forall c :: MayBecome(disk, c) ==> MayBecome(old(disk), c)
      ensures forall c :: MustBecome(old(disk), c) ==> MustBecome(disk, c)
    {
      var files := Lost(disk, pick);
      LostSurvives(disk, pick);
      stage := PowerLossKeepsStage(disk, tx, stage, files);
      PowerLossNarrows(disk, files);
      disk := Disk(files, map[]);
      MustMeansOnly(disk, Logical(files));
    }

    /** Any history of power losses, recovery attempts and reads, each of which may also fail or
        be killed part-way, only ever narrows what the disk can become. */
    method Endure(events: seq<Event>)
      requires Valid()
      modifies this
      ensures Valid()
      ensures forall c :: MayBecome(disk, c) ==> MayBecome(old(disk), c)
      ensures forall c :: MustBecome(old(disk), c) ==> MustBecome(disk, c)
      ensures old(tick) <= tick
    {
      for i := 0 to |events|
        invariant Valid() && old(tick) <= tick
        invariant forall c :: MayBecome(disk, c) ==> MayBecome(old(disk), c)
        invariant forall c :: MustBecome(old(disk), c) ==> MustBecome(disk, c)
      {
        match events[i] {
          case Loss(pick) => PowerLoss(pick);
          case Recovery => var _ := Begin();
          case Read(revoking) => var _, _ := Snapshot(revoking);
        }
      }
    }

    /** Crash atomicity of add, over every fault schedule and every later history: the next
        successful recovery leaves exactly the old or exactly the new contents; the new ones if
        add returned, the old ones if it raised anything but an unknown outcome. */
    method CrashAtomicAdd(tid: nat, fact: string, text: string, glossary: Option<string>, events: seq<Event>)
        returns (o: Outcome, recovered: Outcome)
      requires Clean(disk.visible) && Writable(fact, text, glossary)
      modifies this
      ensures Valid()
      ensures recovered.Done? ==>
        disk.visible in {old(disk).visible, Published(old(disk).visible, fact, text, glossary)}
      ensures recovered.Done? && o.Done? ==> disk.visible == Published(old(disk).visible, fact, text, glossary)
      ensures recovered.Done? && o.Raised? && o.why != OutcomeUnknown ==> disk.visible == old(disk).visible
      ensures recovered.Done? ==> Clean(disk.visible)
      ensures NoFault(old(tick), tick) && GlossaryReads(old(disk).visible) ==> o.Done? && recovered.Done?
    {
      StageMust(disk, tx, stage);
      MustMeansOnly(disk, disk.visible);
      ghost var base;
      o, base := Add(tid, fact, text, glossary);
      if o.Done? { MustMeansOnly(disk, Published(base, fact, text, glossary)); }
      Endure(events);
      recovered := Begin();
    }

    /** What a read returned is never undone: whatever happens short of a new mutation, a later
        read or recovery finds the same contents. */
    method ReadsAreStable(events: seq<Event>, revoking: bool)
      returns (first: Outcome, seen: Files, second: Outcome, again: Files)
      requires Valid()
      modifies this
      ensures Valid()
      ensures first.Done? && second.Done? ==> again == seen
      ensures first.Done? ==> MustBecome(disk, seen)
    {
      first, seen := Snapshot(false);
      Endure(events);
      second, again := Snapshot(revoking);
      if first.Done? && second.Done? {
        assert Survives(disk, disk.visible);
      }
    }
  }

  datatype Event = Loss(pick: map<Path, Option<Data>>) | Recovery | Read(revoking: bool)

  /** A lone rollback cannot be told from a commit yet: the old contents can still come back. */
  lemma StillUndecided(d: Disk, t: Tx, s: Stage)
    requires InStage(d, t, s) && s in {Committing, Aborting} && None in Possible(d, Committed)
    ensures MayBecome(d, t.before)
  {
    var files := Put(d.visible, Committed, None);
    forall p ensures Get(files, p) in Possible(d, p) && Allowed(t, s, p, Get(files, p)) {
      assert Get(d.visible, p) in Possible(d, p);
    }
    assert Allowed(t, s, Prepared, Get(files, Prepared));
    RestoreIsBefore(t, s, files);
    assert Survives(d, files) && Logical(files) == t.before;
  }

  lemma VisibleMarkers(d: Disk, t: Tx, s: Stage)
    requires InStage(d, t, s) && MarkersDurable(d) && (KeepsOld(s) || KeepsNew(s))
    ensures Prepared in d.visible ==> Get(d.visible, Prepared) == t.Prep()
    ensures RollbackRequired in d.visible ==> s == RollingBack || s == Clearing
    ensures RollbackRequired !in d.visible && Committed in d.visible ==>
      KeepsNew(s) && GraphStore.CommitIsExact(d.visible, Get(d.visible, Prepared), d.visible[Committed])
    ensures RollbackRequired !in d.visible && Committed !in d.visible && Prepared in d.visible ==> KeepsOld(s)
    ensures RollbackRequired !in d.visible && Committed !in d.visible && Prepared !in d.visible ==>
      s in {Idle, Retiring}
  {
    forall p ensures Allowed(t, s, p, Get(d.visible, p)) {
      assert Get(d.visible, p) in Possible(d, p);
    }
    assert Allowed(t, s, Prepared, Get(d.visible, Prepared));
    assert Allowed(t, s, Committed, Get(d.visible, Committed));
    assert Allowed(t, s, RollbackRequired, Get(d.visible, RollbackRequired));
    assert Allowed(t, s, Glossary, Get(d.visible, Glossary));
    assert Allowed(t, s, FactFile(t.fact), Get(d.visible, FactFile(t.fact)));
  }

  lemma RestoredMeansIdle(d: Disk, t: Tx, s: Stage)
    requires InStage(d, t, s) && KeepsOld(s)
    requires forall p :: IsData(p) ==> Possible(d, p) == {Get(t.before, p)}
    requires Possible(d, RollbackRequired) <= {None} && Possible(d, Committed) <= {None}
    ensures InStage(d, t, Idle)
  {
    forall p, v | v in Possible(d, p) ensures Allowed(t, Idle, p, v) {
      assert Allowed(t, s, p, v);
    }
  }

  lemma MustMeansOnly(d: Disk, c: Files)
    requires MustBecome(d, c)
    ensures forall c' :: MayBecome(d, c') ==> c' == c
  {}

  lemma OnlyValue(d: Disk, t: Tx, s: Stage, p: Path, v: Option<Data>)
    requires InStage(d, t, s) && forall w :: Allowed(t, s, p, w) ==> w == v
    ensures Possible(d, p) == {v} && Get(d.visible, p) == v
  {
    forall w | w in Possible(d, p) ensures w == v { assert Allowed(t, s, p, w); }
    StillSettled(d, p, v);
  }

  lemma VisibleMeans(d: Disk, t: Tx, s: Stage)
    requires InStage(d, t, s)
    ensures KeepsOld(s) ==> Logical(d.visible) == t.before
    ensures KeepsNew(s) ==> Logical(d.visible) == t.After()
  {
    StageMust(d, t, s);
    assert Survives(d, d.visible);
  }

  lemma NewDataIsDurable(d: Disk, t: Tx)
    requires InStage(d, t, Writing)
    requires Possible(d, FactFile(t.fact)) <= {Some(Text(t.newFact))}
    requires Possible(d, Glossary) <= {AsText(t.newGlossary)}
    ensures InStage(d, t, Committing)
  {
    forall p, v | v in Possible(d, p) ensures Allowed(t, Committing, p, v) {
      assert Allowed(t, Writing, p, v);
      if IsData(p) && p != Glossary && p != FactFile(t.fact) {
        assert Get(t.before, p) == Get(t.After(), p);
      }
    }
  }

  lemma RollbackAppears(d0: Disk, t: Tx, d1: Disk)
    requires InStage(d0, t, Committing) && Possible(d0, RollbackRequired) == {None}
    requires Toward(d0, RollbackRequired, t.Abort(), d1) && Coherent(d1)
    ensures RollbackRequired in d1.visible ==>
      InStage(d1, t, Aborting) && Get(d1.visible, RollbackRequired) == t.Abort()
    ensures RollbackRequired !in d1.visible ==> InStage(d1, t, Committing)
  {
    assert Get(d0.visible, RollbackRequired) in Possible(d0, RollbackRequired);
    var s := if RollbackRequired in d1.visible then Aborting else Committing;
    forall p, v | v in Possible(d1, p) ensures Allowed(t, s, p, v) {
      if p != RollbackRequired { assert v in Possible(d0, p); assert Allowed(t, Committing, p, v); }
    }
  }

  lemma PublishedIsAfter(t: Tx, glossary: Option<string>)
    requires t.WellFormed()
    requires t.newGlossary == if glossary.Some? then glossary else t.OldGlossary()
    ensures t.After() == Published(t.before, t.fact, t.newFact, glossary)
  {
    SameFiles(t.After(), Published(t.before, t.fact, t.newFact, glossary));
  }

  lemma NoMarkersVisible(d: Disk, t: Tx, s: Stage)
    requires InStage(d, t, s)
    requires Prepared !in d.visible && Committed !in d.visible && RollbackRequired !in d.visible
    ensures s in {Idle, Retiring} && Logical(d.visible) == DataOf(d.visible)
  {
    assert Get(d.visible, Prepared) in Possible(d, Prepared);
    assert Get(d.visible, Committed) in Possible(d, Committed);
    assert Allowed(t, s, Prepared, None) && Allowed(t, s, Committed, None);
  }
}
