/** The write-ahead protocol that makes `FactGraph.add` crash atomic.

    A directory entry has one visible value and a set of values that a power loss could
    leave behind.  Replacing or unlinking an entry changes the visible value and widens that
    set; a successful fsync of the directory shrinks it to the visible value.  The graph root
    (markers and glossary) and `facts/` are separate fsync domains.

    Every primitive consults an arbitrary fault schedule: it may work, raise, or be the point
    at which the process is killed.  What a disk *means* is independent of the protocol's
    progress: it is what recovery makes of the files that survive (`Logical`). */
module AddJournal {
  import opened Wrappers

  // ------------------------------------------------------------------ disk

  datatype Path = Prepared | Committed | RollbackRequired | Glossary | FactFile(id: string)

  datatype Directory = ProjectRoot | GraphRoot | FactsDir

  /** SHA-256, treated as injective. */
  datatype Digest = Sha256(preimage: string)

  datatype Data =
    | Text(text: string)
    | PreparedMark(tid: nat, fact: string, previousFact: Option<string>, previousGlossary: Option<string>,
                   factHash: Digest, glossaryHash: Option<Digest>)
    | CommittedMark(tid: nat, fact: string, factHash: Digest, glossaryHash: Option<Digest>)
    | RollbackMark(tid: nat, fact: string)

  type Files = map<Path, Data>

  function Get(files: Files, p: Path): Option<Data> {
    if p in files then Some(files[p]) else None
  }

  function Put(files: Files, p: Path, v: Option<Data>): Files {
    if v.Some? then files[p := v.value] else files - {p}
  }

  function DirectoryOf(p: Path): Directory {
    if p.FactFile? then FactsDir else GraphRoot
  }

  function ParentOf(d: Directory): Directory {
    if d.FactsDir? then GraphRoot else ProjectRoot
  }

  predicate IsData(p: Path) { p.Glossary? || p.FactFile? }

  /** `visible` is what the running system sees.  `loose[p]` lists every value entry `p` might
      have after a power loss; an entry not in `loose` is durable. */
  datatype Disk = Disk(visible: Files, loose: map<Path, set<Option<Data>>>)

  function Possible(d: Disk, p: Path): set<Option<Data>> {
    if p in d.loose then d.loose[p] else {Get(d.visible, p)}
  }

  function Changed(d: Disk, p: Path, v: Option<Data>): Disk {
    Disk(Put(d.visible, p, v), d.loose[p := Possible(d, p) + {v}])
  }

  function Synced(d: Disk, dir: Directory): Disk {
    Disk(d.visible, map p | p in d.loose && DirectoryOf(p) != dir :: d.loose[p])
  }

  /** The visible value is always among the possible ones. */
  ghost predicate Coherent(d: Disk) {
    forall p :: Get(d.visible, p) in Possible(d, p)
  }

  /** `files` is one outcome of a power loss: every entry picks a possible value. */
  ghost predicate Survives(d: Disk, files: Files) {
    forall p :: Get(files, p) in Possible(d, p)
  }

  // -------------------------------------------------------- what a disk means

  function DataOf(files: Files): Files {
    map p | p in files && IsData(p) :: files[p]
  }

  function AsText(t: Option<string>): Option<Data> {
    if t.Some? then Some(Text(t.value)) else None
  }

  function FromText(d: Option<Data>): Option<string> {
    if d.Some? && d.value.Text? then Some(d.value.text) else None
  }

  /** The snapshot a prepared marker records, put back. */
  function Restored(files: Files, mark: Data): Files
    requires mark.PreparedMark?
  {
    Put(Put(DataOf(files), FactFile(mark.fact), AsText(mark.previousFact)), Glossary, AsText(mark.previousGlossary))
  }

  /** The graph contents recovery produces from durable files: a rollback marker wins, then a
      committed marker preserves, then a prepared marker alone rolls back. */
  function Logical(files: Files): Files {
    var rollsBack := RollbackRequired in files || Committed !in files;
    if rollsBack && Prepared in files && files[Prepared].PreparedMark? then Restored(files, files[Prepared])
    else DataOf(files)
  }

  /** Contents `c` can still be the outcome of some power loss followed by recovery. */
  ghost predicate MayBecome(d: Disk, c: Files) {
    exists files: Files :: Survives(d, files) && Logical(files) == c
  }

  ghost predicate MustBecome(d: Disk, c: Files) {
    forall files: Files :: Survives(d, files) ==> Logical(files) == c
  }

  // -------------------------------------------------- stages of a transaction

  /** One add transaction: the durable contents it started from and the bytes it writes. */
  datatype Tx = Tx(tid: nat, fact: string, before: Files, newFact: string, newGlossary: Option<string>)
  {
    function OldFact(): Option<string> { FromText(Get(before, FactFile(fact))) }
    function OldGlossary(): Option<string> { FromText(Get(before, Glossary)) }
    function Hash(t: Option<string>): Option<Digest> { if t.Some? then Some(Sha256(t.value)) else None }
    function Prep(): Option<Data> {
      Some(PreparedMark(tid, fact, OldFact(), OldGlossary(), Sha256(newFact), Hash(newGlossary)))
    }
    function Comm(): Option<Data> { Some(CommittedMark(tid, fact, Sha256(newFact), Hash(newGlossary))) }
    function Abort(): Option<Data> { Some(RollbackMark(tid, fact)) }
    function After(): Files { Put(Put(before, FactFile(fact), Some(Text(newFact))), Glossary, AsText(newGlossary)) }
    ghost predicate WellFormed() {
      forall p :: p in before ==> IsData(p) && before[p].Text?
    }
  }

  /** Progress of a transaction, named for what is still uncertain. */
  datatype Stage =
    | Idle         // the prepared marker may or may not be there; contents are the old ones
    | Writing      // prepared is durable, data bytes are mixed
    | Committing   // new data durable, the commit marker is uncertain
    | Aborting     // ... and a rollback marker is visible but perhaps not durable
    | RollingBack  // rollback marker durable, data bytes are mixed
    | Clearing     // old data durable, the rollback marker is being removed
    | Finishing    // commit marker durable, the prepared marker is being removed
    | Retiring     // only the commit marker may remain

  /** The values entry `p` may have while transaction `t` is at stage `s`. */
  predicate Allowed(t: Tx, s: Stage, p: Path, v: Option<Data>) {
    match p
    case Prepared => (v == t.Prep() && s != Retiring) || (v == None && s in {Idle, Finishing, Retiring})
    case Committed =>
      || (v == None && s != Finishing)
      || (v == t.Comm() && s in {Committing, Aborting, RollingBack, Finishing, Retiring})
    case RollbackRequired =>
      || (v == None && s != RollingBack)
      || (v == t.Abort() && s in {Aborting, RollingBack, Clearing})
    case _ =>
      || (v == Get(t.before, p) && (KeepsOld(s)))
      || (v == Get(t.After(), p) && s !in {Idle, Clearing})
  }

  /** Every value the disk could end up with is allowed. */
  ghost predicate InStage(d: Disk, t: Tx, s: Stage) {
    && Coherent(d)
    && t.WellFormed()
    && (forall p, v :: v in Possible(d, p) ==> Allowed(t, s, p, v))
    && (s == Aborting ==> Get(d.visible, RollbackRequired) == t.Abort())
  }

  /** No marker can be there, now or after a power loss. */
  ghost predicate Unmarked(d: Disk) {
    Possible(d, Prepared) <= {None} && Possible(d, Committed) <= {None} && Possible(d, RollbackRequired) <= {None}
  }

  predicate KeepsOld(s: Stage) { s in {Idle, Writing, RollingBack, Clearing} }
  predicate KeepsNew(s: Stage) { s in {Finishing, Retiring} }

  /** The stage fixes what surviving files mean: never anything but the contents before or after. */
  lemma StageMeaning(t: Tx, s: Stage, files: Files)
    requires t.WellFormed()
    requires forall p :: Allowed(t, s, p, Get(files, p))
    ensures Logical(files) == t.before || Logical(files) == t.After()
    ensures KeepsOld(s) ==> Logical(files) == t.before
    ensures KeepsNew(s) ==> Logical(files) == t.After()
  {
    assert Allowed(t, s, Prepared, Get(files, Prepared));
    assert Allowed(t, s, Committed, Get(files, Committed));
    assert Allowed(t, s, RollbackRequired, Get(files, RollbackRequired));
    if RollbackRequired in files || Committed !in files {
      if Prepared in files {
        RestoreIsBefore(t, s, files);
      } else {
        DataIs(files, if s == Retiring then t.After() else t.before);
      }
    } else {
      DataIs(files, t.After());
    }
  }

  /** Restoring the prepared snapshot yields the old contents, however mixed the data is. */
  lemma RestoreIsBefore(t: Tx, s: Stage, files: Files)
    requires t.WellFormed()
    requires forall p :: Allowed(t, s, p, Get(files, p))
    ensures Restored(files, t.Prep().value) == t.before
  {
    var r := Restored(files, t.Prep().value);
    forall p ensures Get(r, p) == Get(t.before, p) {
      assert Allowed(t, s, p, Get(files, p));
      if IsData(p) && p != Glossary && p != FactFile(t.fact) {
        assert Get(t.before, p) == Get(t.After(), p);
      }
    }
    SameFiles(r, t.before);
  }

  lemma DataIs(files: Files, c: Files)
    requires forall p :: p in c ==> IsData(p)
    requires forall p :: IsData(p) ==> Get(files, p) == Get(c, p)
    ensures DataOf(files) == c
  {
    forall p ensures Get(DataOf(files), p) == Get(c, p) {}
    SameFiles(DataOf(files), c);
  }

  lemma SameFiles(a: Files, b: Files)
    requires forall p :: Get(a, p) == Get(b, p)
    ensures a == b
  {
    forall p ensures (p in a <==> p in b) && (p in a ==> a[p] == b[p]) {
      assert Get(a, p) == Get(b, p);
    }
  }

  lemma StageMust(d: Disk, t: Tx, s: Stage)
    requires InStage(d, t, s)
    ensures KeepsOld(s) ==> MustBecome(d, t.before)
    ensures KeepsNew(s) ==> MustBecome(d, t.After())
    ensures forall c :: MayBecome(d, c) ==> c == t.before || c == t.After()
  {
    forall files: Files | Survives(d, files)
      ensures KeepsOld(s) ==> Logical(files) == t.before
      ensures KeepsNew(s) ==> Logical(files) == t.After()
      ensures Logical(files) == t.before || Logical(files) == t.After()
    {
      forall p ensures Allowed(t, s, p, Get(files, p)) {
        assert Get(files, p) in Possible(d, p);
      }
      StageMeaning(t, s, files);
    }
  }

  // ------------------------------------------------------- disk transitions

  predicate Durable(d: Disk, p: Path) { Possible(d, p) == {Get(d.visible, p)} }

  ghost predicate MarkersDurable(d: Disk) {
    Durable(d, Prepared) && Durable(d, Committed) && Durable(d, RollbackRequired)
  }

  /** A barrier: nothing visible changes and no new outcome becomes possible. */
  ghost predicate Shrunk(d0: Disk, d1: Disk) {
    d1.visible == d0.visible && forall p :: Possible(d1, p) <= Possible(d0, p)
  }

  /** A barrier on `dir` settles no other directory. */
  ghost predicate ElsewhereSame(d0: Disk, dir: Directory, d1: Disk) {
    forall q :: DirectoryOf(q) != dir ==> Possible(d1, q) == Possible(d0, q)
  }

  /** Everything that was possible in `dir` still is. */
  ghost predicate NothingSettled(d0: Disk, dir: Directory, d1: Disk) {
    forall q :: DirectoryOf(q) == dir ==> Possible(d0, q) <= Possible(d1, q)
  }

  predicate NothingMarked(files: Files) {
    Prepared !in files && Committed !in files && RollbackRequired !in files
  }

  /** What is visible is one of the outcomes a power loss can have. */
  lemma VisibleSurvives(d: Disk)
    requires Coherent(d)
    ensures Survives(d, d.visible) && MayBecome(d, Logical(d.visible))
    ensures forall c :: MustBecome(d, c) ==> MayBecome(d, c)
  {
    assert Survives(d, d.visible);
  }

  /** Entry `p` is on its way to `v`; every other entry can only have become more certain. */
  ghost predicate Toward(d0: Disk, p: Path, v: Option<Data>, d1: Disk) {
    && (forall q :: q != p ==> Get(d1.visible, q) == Get(d0.visible, q) && Possible(d1, q) <= Possible(d0, q))
    && Possible(d1, p) <= Possible(d0, p) + {v}
    && (Get(d1.visible, p) == v
        || (Get(d1.visible, p) == Get(d0.visible, p) && Possible(d1, p) <= Possible(d0, p)))
  }

  ghost predicate SettledAt(d: Disk, p: Path, v: Option<Data>) {
    && Get(d.visible, p) == v
    && forall q :: DirectoryOf(q) == DirectoryOf(p) ==> Durable(d, q)
  }

  lemma ChangedIsToward(d: Disk, p: Path, v: Option<Data>)
    requires Coherent(d)
    ensures Coherent(Changed(d, p, v)) && Toward(d, p, v, Changed(d, p, v))
  {
    var d1 := Changed(d, p, v);
    assert Get(d1.visible, p) == v;
    forall q ensures Get(d1.visible, q) in Possible(d1, q) {
      assert Get(d.visible, q) in Possible(d, q);
    }
  }

  /** Certain values stay certain while other entries are written. */
  lemma StillSettled(d: Disk, q: Path, v: Option<Data>)
    requires Coherent(d) && Possible(d, q) <= {v}
    ensures Possible(d, q) == {v} && Get(d.visible, q) == v
  {
    assert Get(d.visible, q) in Possible(d, q);
  }

  /** An allowed write keeps the stage, whether it completes, fails or is cut short. */
  lemma TowardKeepsStage(d0: Disk, t: Tx, s: Stage, p: Path, v: Option<Data>, d1: Disk)
    requires InStage(d0, t, s) && Toward(d0, p, v, d1) && Coherent(d1)
    requires Allowed(t, s, p, v)
    requires s != Aborting || p != RollbackRequired
    ensures InStage(d1, t, s)
  {
    forall q, w | w in Possible(d1, q) ensures Allowed(t, s, q, w) {
      if q != p { assert w in Possible(d0, q); }
    }
  }

  lemma ShrunkKeepsStage(d0: Disk, t: Tx, s: Stage, d1: Disk)
    requires InStage(d0, t, s) && Shrunk(d0, d1) && Coherent(d1)
    ensures InStage(d1, t, s)
  {
    forall q, w | w in Possible(d1, q) ensures Allowed(t, s, q, w) {
      assert w in Possible(d0, q);
    }
  }

  lemma ShrunkNarrows(d0: Disk, d1: Disk)
    requires Shrunk(d0, d1)
    ensures forall c :: MayBecome(d1, c) ==> MayBecome(d0, c)
    ensures forall c :: MustBecome(d0, c) ==> MustBecome(d1, c)
  {
    forall files: Files | Survives(d1, files) ensures Survives(d0, files) {
      forall p ensures Get(files, p) in Possible(d0, p) {
        assert Get(files, p) in Possible(d1, p);
      }
    }
  }

  /** Once the markers are durable the outcome is decided by what is visible. */
  function Decided(d: Disk, s: Stage): Stage {
    if s in {Committing, Aborting} then
      if RollbackRequired in d.visible then RollingBack
      else if Committed in d.visible then Finishing else Writing
    else if s == Clearing then
      if RollbackRequired in d.visible then RollingBack else Writing
    else s
  }

  lemma DecidedStage(d: Disk, t: Tx, s: Stage)
    requires InStage(d, t, s) && MarkersDurable(d)
    ensures InStage(d, t, Decided(d, s))
    ensures KeepsOld(Decided(d, s)) || KeepsNew(Decided(d, s))
    ensures Survives(d, d.visible)
  {
    var s' := Decided(d, s);
    forall q, w | w in Possible(d, q) ensures Allowed(t, s', q, w) {
      assert Allowed(t, s, q, w);
    }
  }

  /** The files that survive a power loss are again a disk at some stage of the same
      transaction, so recovery can always start over. */
  lemma PowerLossKeepsStage(d: Disk, t: Tx, s: Stage, files: Files) returns (s': Stage)
    requires InStage(d, t, s) && Survives(d, files)
    ensures InStage(Disk(files, map[]), t, s')
  {
    var d' := Disk(files, map[]);
    s' := if s == Aborting && RollbackRequired !in files then Committing else s;
    forall q, w | w in Possible(d', q) ensures Allowed(t, s', q, w) {
      assert Get(files, q) in Possible(d, q);
      assert Allowed(t, s, q, w);
    }
  }

  lemma PowerLossNarrows(d: Disk, files: Files)
    requires Survives(d, files)
    ensures MustBecome(Disk(files, map[]), Logical(files)) && MayBecome(d, Logical(files))
  {
    forall g: Files | Survives(Disk(files, map[]), g) ensures g == files {
      forall p ensures Get(g, p) == Get(files, p) {
        assert Get(g, p) in Possible(Disk(files, map[]), p);
      }
      SameFiles(g, files);
    }
  }

  /** Moving to the next stage needs every possible value to be allowed there. */
  lemma Restage(d: Disk, t: Tx, s: Stage, s': Stage)
    requires InStage(d, t, s) && s' != Aborting
    requires forall p, v :: v in Possible(d, p) && Allowed(t, s, p, v) ==> Allowed(t, s', p, v)
    ensures InStage(d, t, s')
  {}

  /** With no marker left and everything durable, the contents are the visible files. */
  lemma NothingPending(d: Disk, t: Tx, s: Stage)
    requires InStage(d, t, s) && s in {Idle, Retiring}
    requires Prepared !in d.visible && Committed !in d.visible && MarkersDurable(d)
    ensures d.visible == if s == Idle then t.before else t.After()
    ensures forall p :: Durable(d, p)
  {
    var c := if s == Idle then t.before else t.After();
    forall p ensures Durable(d, p) && Get(d.visible, p) == Get(c, p) {
      assert Get(d.visible, p) in Possible(d, p);
      assert Allowed(t, s, p, Get(d.visible, p));
      forall v | v in Possible(d, p) ensures v == Get(d.visible, p) {
        assert Allowed(t, s, p, v);
      }
    }
    SameFiles(d.visible, c);
  }

  /** A transaction that has not started: the disk holds exactly `c`. */
  lemma FreshStage(d: Disk, t: Tx)
    requires d.visible == t.before && t.WellFormed() && forall p :: Durable(d, p)
    ensures InStage(d, t, Idle)
  {
    forall p ensures Get(d.visible, p) in Possible(d, p) {
      assert Durable(d, p);
    }
    forall p, v | v in Possible(d, p) ensures Allowed(t, Idle, p, v) {
      assert Durable(d, p);
    }
  }

  /** What a power loss leaves when the loose entries take the values in `pick`; a value that is
      not possible counts as the visible one. */
  function Lost(d: Disk, pick: map<Path, Option<Data>>): Files {
    map p | p in d.visible.Keys + d.loose.Keys && Picked(d, pick, p).Some? :: Picked(d, pick, p).value
  }

  function Picked(d: Disk, pick: map<Path, Option<Data>>, p: Path): Option<Data> {
    if p in d.loose && p in pick && pick[p] in d.loose[p] then pick[p] else Get(d.visible, p)
  }

  lemma LostGet(d: Disk, pick: map<Path, Option<Data>>, p: Path)
    ensures Get(Lost(d, pick), p) == Picked(d, pick, p)
  {}

  lemma LostSurvives(d: Disk, pick: map<Path, Option<Data>>)
    requires Coherent(d)
    ensures Survives(d, Lost(d, pick))
  {
    forall p ensures Get(Lost(d, pick), p) in Possible(d, p) {
      LostGet(d, pick, p);
      assert Get(d.visible, p) in Possible(d, p);
    }
  }

  /** Every outcome of a power loss is produced by some pick. */
  lemma EverySurvivorIsPicked(d: Disk, files: Files)
    requires Survives(d, files)
    ensures exists pick :: Lost(d, pick) == files
  {
    var pick := map p | p in d.loose :: Get(files, p);
    forall p ensures Get(Lost(d, pick), p) == Get(files, p) {
      LostGet(d, pick, p);
      assert Get(files, p) in Possible(d, p);
    }
    SameFiles(Lost(d, pick), files);
  }
}
