/**
 * The durable coordinator. Each method is one transaction: it works on a copy of
 * the database and either commits it or leaves the database as it was.
 * An `assert` in a body stands for a check the program makes and that never fails.
 */
module CoordinationStore {
  import opened Wrappers
  import opened Policy
  import opened Coordination
  import opened CoordinationSteps
  import Text

  datatype Refusal =
    NotPermitted | BadInput | Missing | Unbound | Frozen | Conflict | Overlaid | NotCurrent | Late | Duplicate

  const MAX_TASK_BYTES := 131072
  const MAX_PROMPT_BYTES := 131072
  const MAX_OUTCOME_BYTES := 512
  const MAX_RECONCILE_ENTRIES := 10000
  const DEADLINE_OUTCOME := "phase_deadline_known_not_dispatched"

  ghost predicate GoodOutcome(outcome: string) { outcome != "" && Text.Utf8Length(outcome) <= MAX_OUTCOME_BYTES }

  ghost predicate Dispatched(s: Slot) { s.state == Active || s.state == Ambiguous }

  /** The worker's own dispatched slot, which the binding audit accepts. */
  ghost predicate Canonical(t: Db, worker: Name, slot: Name) {
    slot in t.slots && t.slots[slot].worker == worker && Dispatched(t.slots[slot]) && !Wedged(t.slots[slot])
  }

  /** `_canonical_candidate_slot`. */
  ghost predicate CandidateSlot(t: Db, worker: Name, slot: Name, current: bool) {
    && slot in t.slots && t.slots[slot].worker == worker && t.slots[slot].state != Prepared
    && (current ==> t.slots[slot].generation == t.generation)
  }

  ghost predicate CanRegister(t: Db, worker: Name, c: Receipt) {
    if c in t.candidates then CandidateSlot(t, worker, c.slot, t.candidates[c].state != Closed)
    else Canonical(t, worker, c.slot) && !Overlay(t.candidates)
  }

  /** The candidate's own slot and worker, with an outcome that does not contradict the recorded one. */
  ghost predicate CanTerminalize(t: Db, worker: Name, c: Receipt, slot: Name, outcome: Outcome) {
    && c in t.candidates && c.slot == slot && t.candidates[c].worker == worker
    && CandidateSlot(t, worker, slot, t.candidates[c].state != Closed)
    && (t.candidates[c].state != Live ==> t.candidates[c].outcome == Some(outcome))
  }

  ghost predicate CanReuse(t: Db, worker: Name, c: Receipt) {
    if c in t.candidates
    then
      && CandidateSlot(t, worker, c.slot, false)
      && t.candidates[c].state == Closed && t.candidates[c].outcome == Some(Correct)
    else Canonical(t, worker, c.slot)
  }

  /** Acknowledged and consistent, of a candidate whose slot is terminal, or an exact replay. */
  ghost predicate CanRelease(t: Db, c: Receipt, release: OwnerRelease, acknowledged: bool) {
    && acknowledged && !(release.choice == KnownNoPromotion && release.factActive) && c in t.candidates
    && if t.candidates[c].state == Closed then t.candidates[c].owner == Some(release)
       else c.slot in t.slots && !Open(t.slots[c.slot])
  }

  /** A root slot cannot be given a review if it has another or one is live. */
  ghost predicate Taken(reviews: map<ReviewId, Review>, slot: Name) {
    exists q :: q in reviews && (q.slot == slot || IsLive(reviews[q]))
  }

  ghost function RootEvidence(t: Db, slot: Name, kind: Kind): Evidence
    requires slot in t.slots
  {
    Evidence(t.slots[slot].generation, slot, t.slots[slot].worker, Root, kind, None)
  }

  /** The review that this evidence of this slot designates, if the project has a critic. */
  ghost function Designation(cfg: Config, t: Db, slot: Name, entry: Name): Option<ReviewId>
    requires slot in t.slots
  {
    if cfg.roster.critic.None? then None
    else Some(ReviewId(t.slots[slot].generation, entry, slot, cfg.roster.critic.value))
  }

  ghost function ConfirmationOf(t: Db, slot: Name, id: ReviewId): Evidence
    requires slot in t.slots
  {
    Evidence(t.slots[slot].generation, slot, t.slots[slot].worker, Critic, Confirmation, Some(id.entry))
  }

  /** Evidence that does not clash, for a review that is or can be designated. */
  ghost predicate CanEnter(cfg: Config, t: Db, slot: Name, entry: Name, kind: Kind)
    requires slot in t.slots
  {
    && (entry in t.evidence ==> t.evidence[entry] == RootEvidence(t, slot, kind))
    && var id := Designation(cfg, t, slot, entry);
    id.None? || id.value in t.reviews || (!Taken(t.reviews, slot) && t.slots[slot].generation == t.generation)
  }

  /** A confirmation of the entry the slot was opened for, while its review runs or as an exact replay. */
  ghost predicate CanConfirmBy(t: Db, slot: Name, entry: Name, confirms: Name, rec: Name)
    requires slot in t.slots
  {
    var s := t.slots[slot];
    && s.root == Some(confirms) && s.review.Some? && s.review.value in t.reviews
    && (entry in t.evidence ==>
         t.evidence[entry] == Evidence(s.generation, slot, s.worker, Critic, Confirmation, Some(confirms)))
    && var v := t.reviews[s.review.value];
    || (v.state == Running && rec !in t.recommendations)
    || (v.state == Confirmed && v.confirmation == Some(entry))
  }

  /** Root evidence recorded, and its review opened unless it already was. */
  ghost function Entered(t: Db, slot: Name, entry: Name, kind: Kind, id: Option<ReviewId>): Db
    requires slot in t.slots
  {
    var m := WithEvidence(t, entry, RootEvidence(t, slot, kind));
    if id.None? || id.value in t.reviews then m else WithReview(m, id.value)
  }

  /** The confirmation recorded and the owner gate opened on `rec`, unless the review was confirmed before. */
  ghost function ConfirmedAs(t: Db, slot: Name, id: ReviewId, entry: Name, rec: Name): Db
    requires slot in t.slots && id in t.reviews
  {
    if t.reviews[id].state == Confirmed then t
    else WithConfirmation(WithEvidence(t, entry, ConfirmationOf(t, slot, id)), id, entry, rec)
  }

  /** Evidence moves nothing but evidence, reviews, recommendations and the phase. */
  ghost predicate OnlyReviewed(a: Db, b: Db) {
    b == a.(evidence := b.evidence, reviews := b.reviews, activeReview := b.activeReview,
            recommendations := b.recommendations,
            recommendation := b.recommendation, phase := b.phase)
  }

  lemma EnteredOnly(t: Db, slot: Name, entry: Name, kind: Kind, id: Option<ReviewId>)
    requires slot in t.slots
    ensures var b := Entered(t, slot, entry, kind, id);
      OnlyReviewed(t, b) && entry in b.evidence && b.evidence[entry].slot == slot
  {}

  // ------------------------------------------------------------ memory entries

  datatype Provenance = Provenance(slot: Name, generation: nat, lane: Lane)

  /** An entry of the global memory; `kind` is absent unless it is an obstacle or a dead end. */
  datatype MemoryEntry =
    MemoryEntry(id: Name, kind: Option<Kind>, author: Name, provenance: Option<Provenance>, confirms: Option<Name>)

  datatype Identity = Identity(id: Name, kind: Kind, confirms: Option<Name>)

  /** `_matching_memory_evidence`: what an entry contributes to the slot that wrote it. */
  ghost function Matching(e: MemoryEntry, id: Name, s: Slot): Option<Identity> {
    if e.kind.None? || e.kind == Some(Confirmation) || e.author != s.worker then None
    else if e.provenance != Some(Provenance(id, s.generation, s.lane)) then None
    else if s.lane == Root then Some(Identity(e.id, e.kind.value, None))
    else if s.lane != Critic || e.confirms.None? then None
    else Some(Identity(e.id, Confirmation, e.confirms))
  }

  /** The distinct evidence a batch of entries holds for one slot. */
  ghost predicate Gathered(entries: seq<MemoryEntry>, id: Name, s: Slot, found: map<Name, Identity>) {
    && (forall e :: e in entries && Matching(e, id, s).Some? ==>
         e.id in found && found[e.id] == Matching(e, id, s).value)
    && (forall k :: k in found ==> exists e :: e in entries && Matching(e, id, s) == Some(found[k]) && e.id == k)
  }

  /** One entry id stands for two different pieces of evidence. */
  ghost predicate Clash(d: MemoryEntry, e: MemoryEntry, id: Name, s: Slot) {
    d.id == e.id && Matching(d, id, s).Some? && Matching(e, id, s).Some? && Matching(d, id, s) != Matching(e, id, s)
  }

  ghost predicate Clashing(entries: seq<MemoryEntry>, id: Name, s: Slot) {
    exists d, e :: d in entries && e in entries && Clash(d, e, id, s)
  }

  /** `_matching_memory_evidence`, check by check. */
  method MatchingEvidence(e: MemoryEntry, id: Name, s: Slot) returns (m: Option<Identity>)
    ensures m == Matching(e, id, s)
  {
    if e.kind.None? || e.kind.value == Confirmation { return None; }
    if e.author != s.worker || e.provenance.None? { return None; }
    var origin := e.provenance.value;
    if origin.slot != id || origin.generation != s.generation || origin.lane != s.lane { return None; }
    if s.lane == Root { return Some(Identity(e.id, e.kind.value, None)); }
    if s.lane == Critic && e.confirms.Some? { return Some(Identity(e.id, Confirmation, e.confirms)); }
    return None;
  }

  method Gather(entries: seq<MemoryEntry>, id: Name, s: Slot) returns (r: Result<map<Name, Identity>, Refusal>)
    ensures r.Ok? ==> Gathered(entries, id, s, r.value)
    ensures r.Ok? <==> !Clashing(entries, id, s)
  {
    var found: map<Name, Identity> := map[];
    for i := 0 to |entries|
      invariant Gathered(entries[..i], id, s, found)
    {
      var m := MatchingEvidence(entries[i], id, s);
      assert entries[..i + 1] == entries[..i] + [entries[i]];
      if m.Some? {
        var k := entries[i].id;
        if k in found && found[k] != m.value {
          ghost var d :| d in entries[..i] && Matching(d, id, s) == Some(found[k]) && d.id == k;
          assert d in entries && entries[i] in entries && Clash(d, entries[i], id, s);
          return Err(Conflict);
        }
        found := found[k := m.value];
      }
    }
    assert entries[..|entries|] == entries;
    return Ok(found);
  }

  lemma GatheredIsUnique(entries: seq<MemoryEntry>, id: Name, s: Slot, a: map<Name, Identity>, b: map<Name, Identity>)
    requires Gathered(entries, id, s, a) && Gathered(entries, id, s, b)
    ensures a == b
  {
    forall k | k in a ensures k in b && b[k] == a[k] {
      var e :| e in entries && Matching(e, id, s) == Some(a[k]) && e.id == k;
    }
    forall k | k in b ensures k in a { var e :| e in entries && Matching(e, id, s) == Some(b[k]) && e.id == k; }
  }

  /** A bounded batch without clashes, for a dispatched or terminal slot of the worker. */
  ghost predicate CanReadBack(t: Db, slot: Name, worker: Name, entries: seq<MemoryEntry>) {
    && |entries| <= MAX_RECONCILE_ENTRIES && slot in t.slots && t.slots[slot].worker == worker
    && t.slots[slot].state != Prepared
    && !Clashing(entries, slot, t.slots[slot])
  }

  ghost predicate CanEnterIdentity(cfg: Config, t: Db, slot: Name, entry: Name, i: Identity, rec: Name)
    requires slot in t.slots
  {
    if t.slots[slot].lane == Root then CanEnter(cfg, t, slot, entry, i.kind)
    else t.slots[slot].phase == CriticReview && i.confirms.Some? && CanConfirmBy(t, slot, entry, i.confirms.value, rec)
  }

  /** The one piece of evidence entered: a root's may open a review, a critic's confirms the review of its slot. */
  ghost function WithIdentity(cfg: Config, t: Db, slot: Name, entry: Name, i: Identity, rec: Name): Db
    requires slot in t.slots && CanEnterIdentity(cfg, t, slot, entry, i, rec)
  {
    if t.slots[slot].lane == Root then Entered(t, slot, entry, i.kind, Designation(cfg, t, slot, entry))
    else ConfirmedAs(t, slot, t.slots[slot].review.value, entry, rec)
  }

  /** At most one piece of evidence, and it can be entered. */
  ghost predicate AllEnter(cfg: Config, t: Db, slot: Name, found: map<Name, Identity>, rec: Name)
    requires slot in t.slots
  {
    |found| <= 1 && forall k :: k in found ==> CanEnterIdentity(cfg, t, slot, k, found[k], rec)
  }

  // -------------------------------------------------------------------- calls

  datatype Call =
    | StageTask(worker: Name, text: string)
    | Admit(worker: Name, slot: Name)
    | PinPrompt(slot: Name, prompt: string)
    | Activate(slot: Name)
    | MarkAmbiguous(slot: Name)
    | Complete(slot: Name, outcome: string)
    | RecordRootEvidence(worker: Name, kind: Kind, entry: Name, slot: Name)
    | ConfirmRootEvidence(worker: Name, confirms: Name, entry: Name, slot: Name, recommendation: Name)
    | Reconcile(slot: Name, worker: Name, entries: seq<MemoryEntry>, recommendation: Name)
    | ResolveRecommendation(id: Name, detail: string)
    | RegisterCandidate(worker: Name, receipt: Receipt)
    | TerminalizeCandidate(worker: Name, receipt: Receipt, slot: Name, result: Outcome)
    | RecordExactReuse(worker: Name, slot: Name, fact: Name, identity: Name, source: Option<Name>)
    | ResolveUnknown(receipt: Receipt, release: OwnerRelease, acknowledged: bool)

  class CoordinationStore {
    const cfg: Config
    var db: Db

    ghost predicate Valid() reads this { Inv(cfg, db) }

    constructor (cfg: Config, now: real)
      requires ConfigOk(cfg)
      ensures this.cfg == cfg && db == Initial(cfg, now) && Valid()
    {
      this.cfg := cfg;
      this.db := Initial(cfg, now);
      InitialHolds(cfg, now);
    }

    // -------------------------------------------------------------- advancing

    /** Copies a finished generation's tasks forward, one worker after the other. */
    method CopyForward(tasks: map<TaskKey, Task>, g: nat) returns (out: map<TaskKey, Task>)
      requires ConfigOk(cfg) && WholeAndFrozen(cfg, g, tasks)
      ensures out == Carried(cfg, g, tasks)
    {
      assert forall w :: Paid(cfg, w) ==> TaskKey(w, g) in tasks && tasks[TaskKey(w, g)].frozen;
      assert forall k :: k in tasks ==> k.generation != g + 1;
      out := tasks;
      var workers := Workers(cfg.roster);
      for i := 0 to |workers|
        invariant out == CarriedFor(workers[..i], g, tasks)
      {
        var w := workers[i];
        assert HasLane(cfg.roster, w) && Paid(cfg, w);
        assert workers[..i + 1][..i] == workers[..i];
        out := out[TaskKey(w, g + 1) := Task(tasks[TaskKey(w, g)].text, false)];
      }
      assert workers[..|workers|] == workers;
    }

    /** `_active_candidate`: whether a candidate is active or of unknown outcome. */
    method FindOverlay(cs: map<Receipt, Candidate>) returns (found: bool)
      ensures found == Overlay(cs)
    {
      found := exists c :: c in cs && (cs[c].state == Live || cs[c].state == Unknown);
    }

    /** Whether the lanes the phase requires are among those with a terminal slot in this round. */
    method LanesAreDone(t: Db) returns (done: bool)
      ensures done == RoundDone(cfg, t.generation, t.phase, t.slots)
    {
      var round := set id | id in t.slots && t.slots[id].generation == t.generation && t.slots[id].phase == t.phase
        && t.slots[id].state == Terminal;
      var lanes := set id | id in round :: t.slots[id].lane;
      forall lane ensures lane in lanes <==> Done(t.slots, lane, t.generation, t.phase) {
        if Done(t.slots, lane, t.generation, t.phase) {
          var d :| d in t.slots && IsDone(t.slots[d], lane, t.generation, t.phase);
          assert d in round;
        }
        if lane in lanes {
          var d :| d in round && t.slots[d].lane == lane;
          assert IsDone(t.slots[d], lane, t.generation, t.phase);
        }
      }
      done := if t.phase == CriticReview then Critic in lanes
              else forall w :: w in cfg.roster.lanes ==> cfg.roster.lanes[w] in lanes;
    }

    method IsReady(t: Db) returns (ready: bool)
      ensures ready == Ready(cfg, t)
    {
      var overlay := FindOverlay(t.candidates);
      if t.phase == OwnerAction || overlay { return false; }
      ready := LanesAreDone(t);
    }

    /** `_advance_generation_if_ready`: none of its fail-closed checks can fail. */
    method AdvanceIfReady(t: Db, now: real) returns (b: Db)
      requires Core(cfg, t)
      ensures b == Advanced(cfg, t, now)
    {
      var ready := IsReady(t);
      if !ready { return t; }
      ChecksPass(cfg, t);
      if t.phase == Reasoning && t.activeReview.Some? {
        return t.(phase := CriticReview, deadline := now + cfg.timeout);
      }
      var reviews := t.reviews;
      if t.phase == CriticReview {
        var r := t.activeReview.value;
        reviews := reviews[r := reviews[r].(state := NotConfirmed)];
      }
      var next := CopyForward(t.tasks, t.generation);
      b := OpenGeneration(t, next, reviews, now);
    }

    /** The next generation starts reasoning now, without a review. */
    method OpenGeneration(t: Db, tasks: map<TaskKey, Task>, reviews: map<ReviewId, Review>, now: real) returns (b: Db)
      ensures b == NextGeneration(cfg, t, tasks, reviews, now)
    {
      b := t.(generation := t.generation + 1, phase := Reasoning, activeReview := None,
              deadline := now + cfg.timeout, tasks := tasks, reviews := reviews);
    }

    /** `_validate_slot_task_binding_locked`. */
    method CheckBinding(id: Name) returns (ok: bool)
      requires id in db.slots
      ensures ok == BindingOk(cfg, db, id)
    {
      var s := db.slots[id];
      var k := TaskKey(s.worker, s.generation);
      if k !in db.tasks || !db.tasks[k].frozen || db.tasks[k].text != s.task { return false; }
      if s.prompt.None? { return s.state == Prepared || s.state == Terminal; }
      return cfg.binds(id, s.generation, s.task, s.prompt.value);
    }

    /** `_terminalize_expired_prepared_locked`. */
    method Expire(id: Name, now: real)
      requires Valid() && id in db.slots && db.slots[id].state == Prepared
      modifies this`db
      ensures db == ClosedAndAdvanced(cfg, old(db), id, DEADLINE_OUTCOME, now)
      ensures Valid() && Step(cfg, old(db), db)
    {
      ClosingKeeps(cfg, db, id, DEADLINE_OUTCOME, now);
      var s := db.slots[id].(state := Terminal, outcome := Some(DEADLINE_OUTCOME));
      db := AdvanceIfReady(db.(slots := db.slots[id := s]), now);
    }

    // ---------------------------------------------------------------- staging

    method StageTask(worker: Name, text: string) returns (r: Result<TaskKey, Refusal>)
      requires Valid()
      modifies this`db
      ensures Valid() && Step(cfg, old(db), db)
      ensures r.Err? ==> db == old(db)
      ensures r.Ok? ==>
        && r.value == TaskKey(worker, Horizon(old(db).generation, old(db).phase)) && r.value in db.tasks
        && db.tasks[r.value] == Task(text, r.value in old(db).tasks && old(db).tasks[r.value].frozen)
        && db == old(db).(tasks := old(db).tasks[r.value := db.tasks[r.value]])
      ensures var k := TaskKey(worker, Horizon(old(db).generation, old(db).phase));
        r.Ok? <==>
          && Paid(cfg, worker) && Text.Strip(text) != [] && Text.Utf8Length(text) <= MAX_TASK_BYTES
          && !Overlay(old(db).candidates)
          && (k in old(db).tasks ==> !old(db).tasks[k].frozen || old(db).tasks[k].text == text)
    {
      StepReflexive(cfg, db);
      if !Paid(cfg, worker) { return Err(NotPermitted); }
      if Text.Strip(text) == [] || Text.Utf8Length(text) > MAX_TASK_BYTES { return Err(BadInput); }
      var overlay := FindOverlay(db.candidates);
      if overlay { return Err(Overlaid); }
      var k := TaskKey(worker, if db.phase == OwnerAction then db.generation + 1 else db.generation);
      if k in db.tasks && db.tasks[k].text == text {
        assert db.tasks == db.tasks[k := db.tasks[k]];
        return Ok(k);
      }
      if k in db.tasks && db.tasks[k].frozen { return Err(Frozen); }
      StagedKeeps(cfg, db, k, text);
      db := db.(tasks := db.tasks[k := Task(text, false)]);
      return Ok(k);
    }

    // -------------------------------------------------------------- admission

    predicate HasOpen(worker: Name, id: Name) reads this {
      id in db.slots && db.slots[id].worker == worker && Open(db.slots[id])
    }

    /** What a worker without an open slot that is not admitted is told: nothing to do, unless only its task or a fresh
        slot name is missing. */
    ghost function Declined(cfg: Config, t: Db, worker: Name, now: real): Result<Option<Name>, Refusal> {
      if !MayServe(cfg, t, worker, now) then Ok(None)
      else if TaskKey(worker, t.generation) !in t.tasks then Err(Missing) else Err(Duplicate)
    }

    /** A worker with an open slot has its round already. */
    lemma OpenIsRound(worker: Name, id: Name)
      requires Valid() && HasOpen(worker, id)
      ensures HasRound(db.slots, worker, db.generation, db.phase) || db.phase == OwnerAction
      ensures db.slots[id].generation == db.generation
    {
      assert SlotRow(cfg, db.generation, db.phase, id, db.slots[id]);
    }

    /** Resumes or expires the worker's open slot; without one, hands out a fresh slot exactly when `CanAdmit`. */
    method Admit(worker: Name, slot: Name, now: real) returns (r: Result<Option<Name>, Refusal>)
      requires Valid()
      modifies this`db
      ensures Valid() && Step(cfg, old(db), db)
      ensures CanAdmit(cfg, old(db), worker, slot, now) ==>
        r == Ok(Some(slot)) && db == Admitted(cfg, old(db), worker, slot)
      ensures forall id :: old(HasOpen(worker, id)) ==>
        if now >= old(db).deadline && old(db).slots[id].state == Prepared
        then r == Ok(None) && db == ClosedAndAdvanced(cfg, old(db), id, DEADLINE_OUTCOME, now)
        else db == old(db) && r == if Wedged(old(db).slots[id]) then Err(Unbound) else Ok(Some(id))
      ensures (forall id :: !old(HasOpen(worker, id))) && !CanAdmit(cfg, old(db), worker, slot, now) ==>
        db == old(db) && r == Declined(cfg, old(db), worker, now)
      ensures r.Ok? && r.value.Some? ==>
        HasOpen(worker, r.value.value) && db.slots[r.value.value].generation == db.generation
    {
      StepReflexive(cfg, db);
      if id :| id in db.slots && db.slots[id].worker == worker && Open(db.slots[id]) {
        OpenIsRound(worker, id);
        forall other | HasOpen(worker, other) ensures other == id {
          assert SlotRow(cfg, db.generation, db.phase, id, db.slots[id]);
          assert SlotRow(cfg, db.generation, db.phase, other, db.slots[other]);
          OneOpenSlotPerLane(cfg, db, id, other);
        }
        BindingRejectsWedged(cfg, db, id);
        if now >= db.deadline && db.slots[id].state == Prepared {
          Expire(id, now);
          return Ok(None);
        }
        var bound := CheckBinding(id);
        if !bound { return Err(Unbound); }
        return Ok(Some(id));
      }
      r := AdmitNew(worker, slot, now);
    }

    /** For a worker without an open slot: eligible, unfrozen, in time, not served yet, and with a task. */
    method AdmitNew(worker: Name, slot: Name, now: real) returns (r: Result<Option<Name>, Refusal>)
      requires Valid() && forall id :: !HasOpen(worker, id)
      modifies this`db
      ensures Valid() && Step(cfg, old(db), db)
      ensures CanAdmit(cfg, old(db), worker, slot, now) ==>
        r == Ok(Some(slot)) && db == Admitted(cfg, old(db), worker, slot)
      ensures !CanAdmit(cfg, old(db), worker, slot, now) ==> db == old(db) && r == Declined(cfg, old(db), worker, now)
    {
      StepReflexive(cfg, db);
      LaneIdentifiesWorker(cfg.roster, cfg.maxPaid, worker, worker);
      var eligible := Paid(cfg, worker);
      if db.phase == CriticReview {
        eligible := LaneOf(cfg.roster, worker) == Critic && db.activeReview.value.critic == worker;
      }
      CriticIsDesignated(worker);
      var overlay := FindOverlay(db.candidates);
      if !eligible || db.phase == OwnerAction || overlay || now >= db.deadline { return Ok(None); }
      if exists id :: id in db.slots && db.slots[id].worker == worker && db.slots[id].generation == db.generation
                      && db.slots[id].phase == db.phase {
        return Ok(None);
      }
      forall id | id in db.slots && db.slots[id].worker == worker ensures !Open(db.slots[id]) {
        assert !HasOpen(worker, id);
      }
      RoomForWorker(cfg, db, worker);
      assert |OpenSlots(db.slots)| < cfg.maxPaid;
      if TaskKey(worker, db.generation) !in db.tasks { return Err(Missing); }
      if slot in db.slots { return Err(Duplicate); }
      Grant(worker, slot, now);
      return Ok(Some(slot));
    }

    /** Inserts the slot, freezes its task and starts the review it is for, which is still pending. */
    method Grant(worker: Name, slot: Name, now: real)
      requires Valid() && CanAdmit(cfg, db, worker, slot, now)
      modifies this`db
      ensures Valid() && Step(cfg, old(db), db) && db == Admitted(cfg, old(db), worker, slot)
    {
      assert db.phase == CriticReview ==> db.reviews[db.activeReview.value] == Review(Pending, None, None) by {
        if db.phase == CriticReview {
          ReviewIsPending(cfg, db.generation, db.slots, db.evidence, db.reviews, db.activeReview, worker);
        }
      }
      AdmittedKeeps(cfg, db, worker, slot, now);
      var k := TaskKey(worker, db.generation);
      var text := db.tasks[k].text;
      var review, root, reviews := None, None, db.reviews;
      if db.phase == CriticReview {
        var r := db.activeReview.value;
        review, root, reviews := Some(r), Some(r.entry), reviews[r := Review(Running, Some(slot), None)];
      }
      var s := Slot(worker, LaneOf(cfg.roster, worker), db.generation, db.phase, Prepared, text, None, None, review,
                    root);
      db := db.(slots := db.slots[slot := s], tasks := db.tasks[k := Task(text, true)], reviews := reviews);
    }

    /** In the review phase the live review designates the critic and this generation. */
    lemma CriticIsDesignated(worker: Name)
      requires Valid()
      ensures db.phase == CriticReview && LaneOf(cfg.roster, worker) == Critic ==>
        && db.activeReview.Some? && db.activeReview.value.critic == worker
        && db.activeReview.value.generation == db.generation
    {
      LaneIdentifiesWorker(cfg.roster, cfg.maxPaid, worker, worker);
      if db.phase == CriticReview {
        assert ReviewRow(cfg, db.generation, db.slots, db.evidence, db.activeReview.value,
                         db.reviews[db.activeReview.value]);
      }
    }

    // -------------------------------------------------------- dispatching a slot

    /** The first prompt that names its slot, generation and task is pinned; any later one is answered with it. */
    method PinPrompt(id: Name, prompt: string) returns (r: Result<string, Refusal>)
      requires Valid()
      modifies this`db
      ensures Valid() && Step(cfg, old(db), db)
      ensures r.Err? ==> db == old(db)
      ensures r.Ok? ==>
        && id in old(db).slots && Open(old(db).slots[id])
        && r.value == old(db).slots[id].prompt.GetOr(prompt)
        && db == WithSlot(old(db), id, old(db).slots[id].(prompt := Some(r.value)))
        && cfg.binds(id, db.slots[id].generation, db.slots[id].task, r.value)
      ensures r.Ok? <==>
        && prompt != "" && Text.Utf8Length(prompt) <= MAX_PROMPT_BYTES && id in old(db).slots && Open(old(db).slots[id])
        && !Wedged(old(db).slots[id])
        && cfg.binds(id, old(db).slots[id].generation, old(db).slots[id].task, prompt)
    {
      StepReflexive(cfg, db);
      if prompt == "" || Text.Utf8Length(prompt) > MAX_PROMPT_BYTES { return Err(BadInput); }
      if id !in db.slots || !Open(db.slots[id]) { return Err(Missing); }
      BindingRejectsWedged(cfg, db, id);
      var bound := CheckBinding(id);
      if !bound { return Err(Unbound); }
      var s := db.slots[id];
      if !cfg.binds(id, s.generation, s.task, prompt) { return Err(BadInput); }
      assert SlotRow(cfg, db.generation, db.phase, id, s);
      if s.prompt.Some? {
        assert db.slots == db.slots[id := s.(prompt := Some(s.prompt.value))];
        return Ok(s.prompt.value);
      }
      WithSlotKeeps(cfg, db, id, s.(prompt := Some(prompt)));
      db := db.(slots := db.slots[id := s.(prompt := Some(prompt))]);
      return Ok(prompt);
    }

    /** A pinned slot becomes active before the deadline; at or after it a prepared one is closed unspent. */
    method Activate(id: Name, now: real) returns (r: Result<(), Refusal>)
      requires Valid()
      modifies this`db
      ensures Valid() && Step(cfg, old(db), db)
      ensures r.Ok? <==>
        && id in old(db).slots && Open(old(db).slots[id]) && old(db).slots[id].prompt.Some?
        && (old(db).slots[id].state == Prepared ==> now < old(db).deadline)
      ensures r.Ok? ==>
        && id in old(db).slots && old(db).slots[id].prompt.Some? && Open(old(db).slots[id])
        && db == (if old(db).slots[id].state == Prepared then WithSlot(old(db), id, old(db).slots[id].(state := Active))
                  else old(db))
      ensures r.Ok? && old(db).slots[id].state == Prepared ==> now < old(db).deadline
      ensures r.Err? ==>
        if id in old(db).slots && old(db).slots[id].state == Prepared && old(db).slots[id].prompt.Some?
        then r == Err(Late) && now >= old(db).deadline
             && db == ClosedAndAdvanced(cfg, old(db), id, DEADLINE_OUTCOME, now)
        else db == old(db)
    {
      StepReflexive(cfg, db);
      if id !in db.slots || !Open(db.slots[id]) { return Err(Missing); }
      BindingRejectsWedged(cfg, db, id);
      var bound := CheckBinding(id);
      if !bound { return Err(Unbound); }
      var s := db.slots[id];
      if s.prompt.None? { return Err(Missing); }
      if s.state == Prepared {
        if now >= db.deadline {
          Expire(id, now);
          return Err(Late);
        }
        assert SlotRow(cfg, db.generation, db.phase, id, s);
        WithSlotKeeps(cfg, db, id, s.(state := Active));
        db := db.(slots := db.slots[id := s.(state := Active)]);
      }
      return Ok(());
    }

    /** Also taken for a slot whose prompt is not pinned yet, which wedges it. */
    method MarkAmbiguous(id: Name) returns (r: Result<(), Refusal>)
      requires Valid()
      modifies this`db
      ensures Valid() && Step(cfg, old(db), db)
      ensures r.Ok? <==> id in old(db).slots && Open(old(db).slots[id]) && !Wedged(old(db).slots[id])
      ensures db == if r.Ok? then WithSlot(old(db), id, old(db).slots[id].(state := Ambiguous)) else old(db)
    {
      StepReflexive(cfg, db);
      if id !in db.slots || !Open(db.slots[id]) { return Err(Missing); }
      BindingRejectsWedged(cfg, db, id);
      var bound := CheckBinding(id);
      if !bound { return Err(Unbound); }
      var s := db.slots[id];
      assert SlotRow(cfg, db.generation, db.phase, id, s);
      WithSlotKeeps(cfg, db, id, s.(state := Ambiguous));
      db := db.(slots := db.slots[id := s.(state := Ambiguous)]);
      return Ok(());
    }

    /** Closes a slot and advances what is then ready; an exact replay changes nothing. */
    method Complete(id: Name, outcome: string, now: real) returns (r: Result<(), Refusal>)
      requires Valid()
      modifies this`db
      ensures Valid() && Step(cfg, old(db), db)
      ensures r.Ok? <==>
        && GoodOutcome(outcome) && id in old(db).slots && !Wedged(old(db).slots[id])
        && (Open(old(db).slots[id]) || old(db).slots[id].outcome == Some(outcome))
      ensures db ==
        if r.Ok? && Open(old(db).slots[id]) then ClosedAndAdvanced(cfg, old(db), id, outcome, now)
        else old(db)
    {
      StepReflexive(cfg, db);
      if outcome == "" || Text.Utf8Length(outcome) > MAX_OUTCOME_BYTES { return Err(BadInput); }
      if id !in db.slots { return Err(Missing); }
      BindingRejectsWedged(cfg, db, id);
      var bound := CheckBinding(id);
      if !bound { return Err(Unbound); }
      var s := db.slots[id];
      if s.state == Terminal {
        if s.outcome != Some(outcome) { return Err(Conflict); }
        return Ok(());
      }
      ReviewReceiptMatches(id);
      ClosingKeeps(cfg, db, id, outcome, now);
      db := AdvanceIfReady(db.(slots := db.slots[id := s.(state := Terminal, outcome := Some(outcome))]), now);
      return Ok(());
    }

    /** After an open slot is marked ambiguous it can be completed exactly if its prompt was pinned before. */
    method MarkThenComplete(id: Name, outcome: string, now: real)
      returns (marked: Result<(), Refusal>, completed: Result<(), Refusal>)
      requires Valid() && id in db.slots && Open(db.slots[id]) && GoodOutcome(outcome)
      modifies this`db
      ensures Valid()
      ensures completed.Ok? <==> old(db).slots[id].prompt.Some?
      ensures completed.Err? ==> id in db.slots && Wedged(db.slots[id])
    {
      marked := MarkAmbiguous(id);
      completed := Complete(id, outcome, now);
    }

    /** A review slot still open is the one its live review names. */
    lemma ReviewReceiptMatches(id: Name)
      requires Valid() && id in db.slots && Open(db.slots[id])
      ensures db.slots[id].review.Some? ==> var r := db.slots[id].review.value;
        && r in db.reviews && db.reviews[r].criticSlot == Some(id)
        && (db.reviews[r].state == Running || db.reviews[r].state == Confirmed)
    {
      assert SlotRow(cfg, db.generation, db.phase, id, db.slots[id]);
      if db.slots[id].review.Some? {
        ReviewSlotIsActive(cfg, db, id);
        var r := db.slots[id].review.value;
        assert ReviewRow(cfg, db.generation, db.slots, db.evidence, r, db.reviews[r]) && IsLive(db.reviews[r]);
      }
    }

    // --------------------------------------------------- evidence and the owner

    /** `_canonical_paid_slot`: a dispatched slot of this worker; it is always in the current generation. */
    method CanonicalSlot(worker: Name, slot: Name) returns (r: Result<Slot, Refusal>)
      requires Valid()
      ensures r.Ok? <==> Canonical(db, worker, slot)
      ensures r.Ok? ==>
        r.value == db.slots[slot] && r.value.generation == db.generation && r.value.lane == LaneOf(cfg.roster, worker)
    {
      if slot !in db.slots || db.slots[slot].worker != worker { return Err(Missing); }
      if db.slots[slot].state == Prepared || db.slots[slot].state == Terminal { return Err(Missing); }
      assert SlotRow(cfg, db.generation, db.phase, slot, db.slots[slot]);
      BindingRejectsWedged(cfg, db, slot);
      var bound := CheckBinding(slot);
      if !bound { return Err(Unbound); }
      return Ok(db.slots[slot]);
    }

    /** Inserts evidence of a root slot and, as `_ensure_review_for_root_locked`, designates the slot's one review. */
    method EnterRootEvidence(slot: Name, entry: Name, kind: Kind) returns (r: Result<Option<ReviewId>, Refusal>)
      requires Valid() && slot in db.slots && db.slots[slot].lane == Root && kind != Confirmation
      modifies this`db
      ensures Valid() && Step(cfg, old(db), db)
      ensures r.Err? ==> db == old(db)
      ensures r.Ok? <==> CanEnter(cfg, old(db), slot, entry, kind)
      ensures r.Ok? ==>
        r.value == Designation(cfg, old(db), slot, entry) && db == Entered(old(db), slot, entry, kind, r.value)
    {
      StepReflexive(cfg, db);
      var s := db.slots[slot];
      var e := Evidence(s.generation, slot, s.worker, Root, kind, None);
      if entry in db.evidence && db.evidence[entry] != e { return Err(Conflict); }
      if cfg.roster.critic.None? {
        Record(entry, e);
        return Ok(None);
      }
      var id := ReviewId(s.generation, entry, slot, cfg.roster.critic.value);
      if id in db.reviews {
        Record(entry, e);
        return Ok(Some(id));
      }
      if exists q :: q in db.reviews && (q.slot == slot || db.reviews[q].state in {Pending, Running, Confirmed}) {
        return Err(Conflict);
      }
      if s.generation != db.generation { return Err(NotCurrent); }
      Designate(entry, e, id);
      return Ok(Some(id));
    }

    method Record(entry: Name, e: Evidence)
      requires Valid() && EvidenceRow(db.slots, e) && (entry in db.evidence ==> db.evidence[entry] == e)
      modifies this`db
      ensures Valid() && Step(cfg, old(db), db) && db == WithEvidence(old(db), entry, e)
    {
      EvidenceKeeps(cfg, db, entry, e);
      db := db.(evidence := db.evidence[entry := e]);
    }

    method Designate(entry: Name, e: Evidence, id: ReviewId)
      requires Valid() && EvidenceRow(db.slots, e) && (entry in db.evidence ==> db.evidence[entry] == e)
      requires e.lane == Root && e.generation == db.generation
      requires cfg.roster.critic.Some? && id == ReviewId(db.generation, entry, e.slot, cfg.roster.critic.value)
      requires !Taken(db.reviews, e.slot)
      modifies this`db
      ensures Valid() && Step(cfg, old(db), db) && db == WithReview(WithEvidence(old(db), entry, e), id)
    {
      PointerIsLive(db.generation, db.phase, db.activeReview, db.reviews);
      assert db.activeReview.None? && db.recommendation.None?;
      EvidenceAndReview(cfg, db, entry, e, id);
      db := db.(evidence := db.evidence[entry := e], reviews := db.reviews[id := Review(Pending, None, None)],
                activeReview := Some(id));
    }

    /** `record_root_evidence`. */
    method RecordRootEvidence(worker: Name, kind: Kind, entry: Name, slot: Name)
      returns (r: Result<Option<ReviewId>, Refusal>)
      requires Valid()
      modifies this`db
      ensures Valid() && Step(cfg, old(db), db)
      ensures r.Ok? <==>
        && LaneOf(cfg.roster, worker) == Root && kind != Confirmation && Canonical(old(db), worker, slot)
        && CanEnter(cfg, old(db), slot, entry, kind)
      ensures r.Err? ==> db == old(db)
      ensures r.Ok? ==>
        && worker == cfg.roster.root && slot in old(db).slots && old(db).slots[slot].worker == worker
        && Dispatched(old(db).slots[slot])
        && old(db).slots[slot].generation == old(db).generation
        && r.value == Designation(cfg, old(db), slot, entry) && db == Entered(old(db), slot, entry, kind, r.value)
    {
      StepReflexive(cfg, db);
      if LaneOf(cfg.roster, worker) != Root || kind == Confirmation { return Err(NotPermitted); }
      LaneIdentifiesWorker(cfg.roster, cfg.maxPaid, worker, worker);
      var c := CanonicalSlot(worker, slot);
      if c.Err? { return Err(c.error); }
      r := EnterRootEvidence(slot, entry, kind);
    }

    /** The row a critic's confirmation adds. */
    lemma CriticRow(t: Db, slot: Name, r: ReviewId)
      requires Inv(cfg, t) && slot in t.slots && t.slots[slot].lane == Critic && t.slots[slot].review == Some(r)
      ensures r in t.reviews && t.reviews[r].criticSlot == Some(slot) && t.slots[slot].root == Some(r.entry)
      ensures t.reviews[r].confirmation.Some? ==> ConfirmedBy(t.evidence, r, slot, t.reviews[r].confirmation.value)
      ensures t.slots[slot].worker == r.critic && t.slots[slot].generation == r.generation
      ensures RootSide(cfg, t.slots, t.evidence, r)
    {
      assert BackLink(t.reviews, slot, t.slots[slot]);
      assert ReviewRow(cfg, t.generation, t.slots, t.evidence, r, t.reviews[r]);
    }

    /** Inserts a confirmation by a critic's review slot and confirms its review. */
    method EnterConfirmation(slot: Name, entry: Name, confirms: Name, rec: Name) returns (r: Result<Name, Refusal>)
      requires Valid() && slot in db.slots && db.slots[slot].lane == Critic && db.slots[slot].phase == CriticReview
      modifies this`db
      ensures Valid() && Step(cfg, old(db), db) && OnlyReviewed(old(db), db)
      ensures r.Ok? <==> CanConfirmBy(old(db), slot, entry, confirms, rec)
      ensures r.Err? ==> db == old(db)
      ensures r.Ok? ==>
        db == ConfirmedAs(old(db), slot, old(db).slots[slot].review.value, entry, rec)
      ensures r.Ok? ==>
        && db.phase == OwnerAction && db.recommendation == Some(r.value) && db.slots[slot].root == Some(confirms)
        && db.slots[slot].review == db.activeReview
        && entry in db.evidence
        && db.evidence[entry] == Evidence(db.slots[slot].generation, slot, db.slots[slot].worker, Critic, Confirmation,
                                          Some(confirms))
    {
      StepReflexive(cfg, db);
      var s := db.slots[slot];
      assert SlotRow(cfg, db.generation, db.phase, slot, s);
      var id := s.review.value;
      CriticRow(db, slot, id);
      assert db.reviews[id].state == Confirmed ==> IsLive(db.reviews[id]);
      if s.root != Some(confirms) { return Err(NotPermitted); }
      var e := Evidence(s.generation, slot, s.worker, Critic, Confirmation, Some(confirms));
      if entry in db.evidence && db.evidence[entry] != e { return Err(Conflict); }
      var v := db.reviews[id];
      if v.state == Confirmed {
        if v.confirmation != Some(entry) { return Err(Conflict); }
        return Ok(db.recommendation.value);
      }
      if v.state != Running { return Err(NotCurrent); }
      if rec in db.recommendations { return Err(Duplicate); }
      Confirm(slot, id, entry, rec);
      return Ok(rec);
    }

    /** Records the confirmation of a running review and opens the owner gate. */
    method Confirm(slot: Name, id: ReviewId, entry: Name, rec: Name)
      requires Valid() && slot in db.slots && db.slots[slot].lane == Critic && db.slots[slot].review == Some(id)
      requires id in db.reviews && db.reviews[id].state == Running && rec !in db.recommendations
      requires entry in db.evidence ==> db.evidence[entry] == ConfirmationOf(db, slot, id)
      modifies this`db
      ensures Valid() && Step(cfg, old(db), db)
      ensures db == WithConfirmation(WithEvidence(old(db), entry, ConfirmationOf(old(db), slot, id)), id, entry, rec)
    {
      CriticRow(db, slot, id);
      assert IsLive(db.reviews[id]);
      EvidenceAndConfirmation(cfg, db, entry, ConfirmationOf(db, slot, id), id, rec);
      var s, v := db.slots[slot], db.reviews[id];
      var e := Evidence(s.generation, slot, s.worker, Critic, Confirmation, Some(id.entry));
      db := db.(evidence := db.evidence[entry := e],
                reviews := db.reviews[id := v.(state := Confirmed, confirmation := Some(entry))],
                recommendations := db.recommendations[rec := Recommendation(db.generation, id, id.entry, entry)],
                recommendation := Some(rec), phase := OwnerAction);
    }

    /** `confirm_root_evidence`. */
    method ConfirmRootEvidence(worker: Name, confirms: Name, entry: Name, slot: Name, rec: Name)
      returns (r: Result<Name, Refusal>)
      requires Valid()
      modifies this`db
      ensures Valid() && Step(cfg, old(db), db) && OnlyReviewed(old(db), db)
      ensures r.Ok? <==>
        && LaneOf(cfg.roster, worker) == Critic && Canonical(old(db), worker, slot)
        && old(db).slots[slot].phase == CriticReview
        && CanConfirmBy(old(db), slot, entry, confirms, rec)
      ensures r.Err? ==> db == old(db)
      ensures r.Ok? ==>
        db == ConfirmedAs(old(db), slot, old(db).slots[slot].review.value, entry, rec)
      ensures r.Ok? ==>
        && cfg.roster.critic == Some(worker) && slot in db.slots && Dispatched(db.slots[slot])
        && db.phase == OwnerAction && db.recommendation == Some(r.value) && db.slots[slot].root == Some(confirms)
        && db.slots[slot].review == db.activeReview
        && entry in db.evidence
        && db.evidence[entry] == Evidence(old(db).generation, slot, worker, Critic, Confirmation, Some(confirms))
    {
      StepReflexive(cfg, db);
      if LaneOf(cfg.roster, worker) != Critic { return Err(NotPermitted); }
      LaneIdentifiesWorker(cfg.roster, cfg.maxPaid, worker, worker);
      var c := CanonicalSlot(worker, slot);
      if c.Err? { return Err(c.error); }
      if c.value.phase != CriticReview || c.value.root != Some(confirms) { return Err(NotPermitted); }
      r := EnterConfirmation(slot, entry, confirms, rec);
    }

    /** Replays what a slot published to global memory before its receipt reached the database. */
    method Reconcile(slot: Name, worker: Name, entries: seq<MemoryEntry>, rec: Name)
      returns (r: Result<map<Name, Identity>, Refusal>)
      requires Valid()
      modifies this`db
      ensures Valid() && Step(cfg, old(db), db) && OnlyReviewed(old(db), db)
      ensures r.Ok? ==>
        CanReadBack(old(db), slot, worker, entries) && Gathered(entries, slot, old(db).slots[slot], r.value)
      ensures CanReadBack(old(db), slot, worker, entries) ==>
        forall found :: Gathered(entries, slot, old(db).slots[slot], found) ==>
          (r.Ok? <==> AllEnter(cfg, old(db), slot, found, rec))
      ensures r.Err? ==> db == old(db)
      ensures r.Ok? ==>
        && |r.value| <= 1 && (r.value == map[] ==> db == old(db))
        && forall k :: k in r.value ==>
             && CanEnterIdentity(cfg, old(db), slot, k, r.value[k], rec)
             && db == WithIdentity(cfg, old(db), slot, k, r.value[k], rec)
      ensures r.Ok? && old(db).slots[slot].lane != Root && old(db).slots[slot].lane != Critic ==> r.value == map[]
    {
      StepReflexive(cfg, db);
      var g := ReadBack(slot, worker, entries);
      if g.Err? { return Err(g.error); }
      var found := g.value;
      forall other | Gathered(entries, slot, db.slots[slot], other) ensures other == found {
        GatheredIsUnique(entries, slot, db.slots[slot], other, found);
      }
      if found == map[] { return Ok(found); }
      if |found| > 1 { return Err(Conflict); }
      var k :| k in found;
      OnlyKey(found, k);
      ghost var source :|
        source in entries && Matching(source, slot, db.slots[slot]) == Some(found[k]) && source.id == k;
      var n := EnterEvidence(slot, k, found[k], rec);
      return if n.Ok? then Ok(found) else Err(n.error);
    }

    /** The evidence a batch holds for one live or terminal slot of the worker. */
    method ReadBack(slot: Name, worker: Name, entries: seq<MemoryEntry>)
      returns (r: Result<map<Name, Identity>, Refusal>)
      ensures r.Ok? <==> CanReadBack(db, slot, worker, entries)
      ensures r.Ok? ==> Gathered(entries, slot, db.slots[slot], r.value)
    {
      if |entries| > MAX_RECONCILE_ENTRIES { return Err(BadInput); }
      if slot !in db.slots || db.slots[slot].worker != worker || db.slots[slot].state == Prepared {
        return Err(Missing);
      }
      r := Gather(entries, slot, db.slots[slot]);
    }

    method EnterEvidence(slot: Name, entry: Name, i: Identity, rec: Name) returns (r: Result<(), Refusal>)
      requires Valid() && slot in db.slots
      requires
        if db.slots[slot].lane == Root then i.kind != Confirmation
        else db.slots[slot].lane == Critic && i.confirms.Some?
      modifies this`db
      ensures Valid() && Step(cfg, old(db), db) && OnlyReviewed(old(db), db)
      ensures r.Ok? <==> CanEnterIdentity(cfg, old(db), slot, entry, i, rec)
      ensures r.Err? ==> db == old(db)
      ensures r.Ok? ==> db == WithIdentity(cfg, old(db), slot, entry, i, rec)
    {
      if db.slots[slot].lane == Root {
        ghost var before := db;
        var e := EnterRootEvidence(slot, entry, i.kind);
        if e.Err? { return Err(e.error); }
        EnteredOnly(before, slot, entry, i.kind, e.value);
        return Ok(());
      } else if db.slots[slot].phase != CriticReview {
        StepReflexive(cfg, db);
        return Err(NotPermitted);
      } else {
        var e := EnterConfirmation(slot, entry, i.confirms.value, rec);
        r := if e.Ok? then Ok(()) else Err(e.error);
      }
    }

    lemma OnlyKey(found: map<Name, Identity>, k: Name)
      requires |found| <= 1 && k in found
      ensures forall j :: j in found ==> j == k
    {
      assert |found.Keys - {k}| == |found| - 1;
      assert forall j :: j in found && j != k ==> j in found.Keys - {k};
    }

    method FreezeTasks(tasks: map<TaskKey, Task>, g: nat) returns (next: map<TaskKey, Task>)
      ensures Freezes(g, tasks, next)
    {
      next := map k | k in tasks :: if k.generation == g then tasks[k].(frozen := true) else tasks[k];
    }

    /** The project resumes reasoning in the next generation, with the answered review and recommendation closed. */
    method Resumed(t: Db, i: Name, detail: string, next: map<TaskKey, Task>, now: real) returns (b: Db)
      requires i in t.recommendations && t.recommendations[i].review in t.reviews
      ensures b == WithResolution(cfg, t, i, detail, next, now)
    {
      var r := t.recommendations[i].review;
      b := t.(generation := t.generation + 1, phase := Reasoning, deadline := now + cfg.timeout, tasks := next,
              reviews := t.reviews[r := t.reviews[r].(state := Resolved)], activeReview := None,
              recommendation := None, resolutions := t.resolutions[i := detail]);
    }

    method CommitResolution(i: Name, detail: string, now: real)
      requires Valid() && CanResolve(cfg, db, i)
      modifies this`db
      ensures Valid() && Step(cfg, old(db), db)
      ensures i in old(db).recommendations && old(db).recommendations[i].review in old(db).reviews
      ensures Freezes(old(db).generation + 1, old(db).tasks, db.tasks)
      ensures db == WithResolution(cfg, old(db), i, detail, db.tasks, now)
    {
      var next := FreezeTasks(db.tasks, db.generation + 1);
      ResolutionKeeps(cfg, db, i, detail, next, now);
      ResolutionIsStep(cfg, db, i, detail, next, now);
      db := Resumed(db, i, detail, next, now);
    }

    /** The checks made before a resolution amount to `CanResolve`; the review binding always holds. */
    lemma ResolutionGuard(i: Name)
      requires Valid() && i in db.recommendations && i !in db.resolutions
      ensures db.recommendation == Some(i) && db.phase == OwnerAction
      ensures db.recommendations[i].generation == db.generation
      ensures db.activeReview == Some(db.recommendations[i].review)
      ensures CanResolve(cfg, db, i) <==>
        && !Overlay(db.candidates) && FullyStaged(cfg, db.tasks, db.generation + 1)
        && !exists id :: id in db.slots && db.slots[id].generation == db.generation && Open(db.slots[id])
    {
      assert RecommendationRow(db.recommendation, db.reviews, db.resolutions, i, db.recommendations[i]);
      forall id | id in db.slots && Open(db.slots[id]) ensures db.slots[id].generation == db.generation {
        assert SlotRow(cfg, db.generation, db.phase, id, db.slots[id]);
      }
    }

    /** Nothing open in this generation, no candidate frozen on, and every paid worker's next task staged. */
    method CheckResolution(i: Name) returns (problem: Option<Refusal>)
      requires Valid() && i in db.recommendations && i !in db.resolutions
      ensures problem.None? <==> CanResolve(cfg, db, i)
    {
      ResolutionGuard(i);
      if exists id :: id in db.slots && db.slots[id].generation == db.generation && Open(db.slots[id]) {
        return Some(NotCurrent);
      }
      var overlay := FindOverlay(db.candidates);
      if overlay { return Some(Overlaid); }
      if exists w :: w in cfg.roster.lanes && TaskKey(w, db.generation + 1) !in db.tasks { return Some(Missing); }
      return None;
    }

    lemma ResolvedIsNotOpen(i: Name)
      requires Valid() && i !in db.recommendations
      ensures i !in db.resolutions && db.recommendation != Some(i)
    {}

    /** The owner's one resolution: freezes the whole next generation's tasks and resumes reasoning. */
    method ResolveRecommendation(i: Name, detail: string, now: real) returns (r: Result<(), Refusal>)
      requires Valid()
      modifies this`db
      ensures Valid() && Step(cfg, old(db), db)
      ensures r.Ok? <==>
        (if i in old(db).resolutions then old(db).resolutions[i] == detail else CanResolve(cfg, old(db), i))
      ensures r.Err? || i in old(db).resolutions ==> db == old(db)
      ensures r.Ok? && i !in old(db).resolutions ==>
        && i in old(db).recommendations && old(db).recommendations[i].review in old(db).reviews
        && Freezes(old(db).generation + 1, old(db).tasks, db.tasks)
        && db == WithResolution(cfg, old(db), i, detail, db.tasks, now)
    {
      StepReflexive(cfg, db);
      if i in db.resolutions { return if db.resolutions[i] == detail then Ok(()) else Err(Conflict); }
      if i !in db.recommendations {
        ResolvedIsNotOpen(i);
        return Err(Missing);
      }
      var problem := CheckResolution(i);
      if problem.Some? { return Err(problem.value); }
      CommitResolution(i, detail, now);
      return Ok(());
    }

    // -------------------------------------------------------------- candidates

    /** `_canonical_candidate_slot`: the worker's slot, dispatched or terminal, and of this generation if asked. */
    method CheckCandidateSlot(worker: Name, slot: Name, current: bool) returns (ok: bool)
      ensures ok == CandidateSlot(db, worker, slot, current)
    {
      if slot !in db.slots { return false; }
      var s := db.slots[slot];
      ok := s.worker == worker && s.state in {Active, Ambiguous, Terminal}
        && (!current || s.generation == db.generation);
    }

    /** Freezes the project on one candidate; a replay answers with the recorded row. */
    method RegisterCandidate(worker: Name, c: Receipt) returns (r: Result<Candidate, Refusal>)
      requires Valid()
      modifies this`db
      ensures Valid() && Step(cfg, old(db), db)
      ensures r.Ok? <==> CanRegister(old(db), worker, c)
      ensures r.Err? || c in old(db).candidates ==> db == old(db)
      ensures r.Ok? ==> c in db.candidates && db.candidates[c] == r.value && r.value.worker == worker
      ensures r.Ok? && c !in old(db).candidates ==>
        !Overlay(old(db).candidates) && r.value.state == Live && db == WithCandidate(old(db), c, r.value)
    {
      StepReflexive(cfg, db);
      if c in db.candidates {
        var own := CheckCandidateSlot(worker, c.slot, db.candidates[c].state != Closed);
        if !own { return Err(Missing); }
        assert CandidateRow(db.generation, db.slots, c, db.candidates[c]);
        return Ok(db.candidates[c]);
      }
      var s := CanonicalSlot(worker, c.slot);
      if s.Err? { return Err(s.error); }
      var overlay := FindOverlay(db.candidates);
      if overlay { return Err(Overlaid); }
      var v := Candidate(s.value.generation, worker, s.value.lane, Live, None, None);
      CandidateKeeps(cfg, db, c, v);
      db := db.(candidates := db.candidates[c := v]);
      return Ok(v);
    }

    /** Records how a verification ended; every outcome but an unknown one releases the project, which then advances if
        it was only waiting for that. */
    method TerminalizeCandidate(worker: Name, c: Receipt, slot: Name, outcome: Outcome, now: real)
      returns (r: Result<Candidate, Refusal>)
      requires Valid()
      modifies this`db
      ensures Valid() && Step(cfg, old(db), db)
      ensures r.Ok? <==> CanTerminalize(old(db), worker, c, slot, outcome)
      ensures r.Err? ==> db == old(db)
      ensures r.Ok? ==>
        c in old(db).candidates && c in db.candidates && db.candidates[c] == r.value && r.value.outcome == Some(outcome)
      ensures r.Ok? && old(db).candidates[c].state != Live ==> db == old(db)
      ensures r.Ok? && old(db).candidates[c].state == Live && outcome == OutcomeUnknown ==>
        && r.value.state == Unknown && Overlay(db.candidates)
        && db == WithCandidate(old(db), c, old(db).candidates[c].(state := Unknown, outcome := Some(OutcomeUnknown)))
      ensures r.Ok? && old(db).candidates[c].state == Live && outcome != OutcomeUnknown ==>
        && r.value.state == Closed && !Overlay(db.candidates)
        && db == Advanced(cfg, WithCandidate(old(db), c, old(db).candidates[c].(state := Closed,
                                                                                 outcome := Some(outcome))), now)
    {
      StepReflexive(cfg, db);
      if c !in db.candidates || c.slot != slot { return Err(Missing); }
      var v := db.candidates[c];
      var own := CheckCandidateSlot(worker, slot, v.state != Closed);
      if !own || v.worker != worker { return Err(Missing); }
      assert CandidateRow(db.generation, db.slots, c, v);
      if v.state != Live {
        if v.outcome != Some(outcome) { return Err(Conflict); }
        if Releases(outcome) { db := AdvanceIfReady(db, now); }
        return Ok(v);
      }
      var w := v.(state := if Releases(outcome) then Closed else Unknown, outcome := Some(outcome));
      if Releases(outcome) {
        Release(c, w, now);
      } else {
        CandidateKeeps(cfg, db, c, w);
        db := db.(candidates := db.candidates[c := w]);
      }
      return Ok(w);
    }

    method Release(c: Receipt, w: Candidate, now: real)
      requires Valid() && c in db.candidates && IsOverlay(db.candidates[c])
      requires CandidateRow(db.generation, db.slots, c, w) && w.state == Closed
      modifies this`db
      ensures Valid() && Step(cfg, old(db), db)
      ensures db == Advanced(cfg, WithCandidate(old(db), c, w), now) && c in db.candidates && db.candidates[c] == w
      ensures !Overlay(db.candidates)
    {
      ReleaseKeeps(cfg, db, c, w, now);
      ReleaseIsStep(cfg, db, c, w, now);
      NoOverlayLeft(db.generation, db.slots, db.candidates, c, w);
      db := AdvanceIfReady(db.(candidates := db.candidates[c := w]), now);
    }

    /** A fact that is already active needs no verification: its receipt is recorded closed. */
    method RecordExactReuse(worker: Name, slot: Name, fact: Name, identity: Name, source: Option<Name>)
      returns (r: Result<Receipt, Refusal>)
      requires Valid()
      modifies this`db
      ensures Valid() && Step(cfg, old(db), db)
      ensures r.Ok? <==>
        CanReuse(old(db), worker, Receipt(slot, fact, identity, source, cfg.reuse(slot, fact, identity, source)))
      ensures r.Err? ==> db == old(db)
      ensures r.Ok? ==>
        && r.value == Receipt(slot, fact, identity, source, cfg.reuse(slot, fact, identity, source))
        && r.value in db.candidates && db.candidates[r.value].state == Closed
        && db.candidates[r.value].outcome == Some(Correct)
        && db == old(db).(candidates := old(db).candidates[r.value := db.candidates[r.value]])
    {
      StepReflexive(cfg, db);
      var c := Receipt(slot, fact, identity, source, cfg.reuse(slot, fact, identity, source));
      if c in db.candidates {
        var own := CheckCandidateSlot(worker, slot, false);
        if !own { return Err(Missing); }
        if db.candidates[c].state != Closed || db.candidates[c].outcome != Some(Correct) { return Err(Conflict); }
        assert db.candidates == db.candidates[c := db.candidates[c]];
        return Ok(c);
      }
      var s := CanonicalSlot(worker, slot);
      if s.Err? { return Err(s.error); }
      var v := Candidate(s.value.generation, worker, s.value.lane, Closed, Some(Correct), None);
      CandidateKeeps(cfg, db, c, v);
      db := db.(candidates := db.candidates[c := v]);
      return Ok(c);
    }

    /** The owner's release of a candidate whose outcome is not known. */
    method ResolveUnknown(c: Receipt, release: OwnerRelease, acknowledged: bool, now: real)
      returns (r: Result<(), Refusal>)
      requires Valid()
      modifies this`db
      ensures Valid() && Step(cfg, old(db), db)
      ensures r.Ok? <==> CanRelease(old(db), c, release, acknowledged)
      ensures r.Err? ==> db == old(db)
      ensures r.Ok? ==>
        && acknowledged && !(release.choice == KnownNoPromotion && release.factActive)
        && c in old(db).candidates && c in db.candidates && db.candidates[c].owner == Some(release)
        && db.candidates[c].outcome == Some(OutcomeUnknown)
      ensures r.Ok? && old(db).candidates[c].state == Closed ==> db == old(db)
      ensures r.Ok? && old(db).candidates[c].state != Closed ==>
        && c.slot in old(db).slots && !Open(old(db).slots[c.slot])
        && var v := old(db).candidates[c].(state := Closed, outcome := Some(OutcomeUnknown), owner := Some(release));
        && db == Advanced(cfg, WithCandidate(old(db), c, v), now)
    {
      StepReflexive(cfg, db);
      if !acknowledged || (release.choice == KnownNoPromotion && release.factActive) { return Err(NotPermitted); }
      if c !in db.candidates { return Err(Missing); }
      var v := db.candidates[c];
      assert CandidateRow(db.generation, db.slots, c, v);
      if v.state == Closed {
        if v.owner != Some(release) { return Err(Conflict); }
        db := AdvanceIfReady(db, now);
        return Ok(());
      }
      if Open(db.slots[c.slot]) { return Err(NotCurrent); }
      var w := v.(state := Closed, outcome := Some(OutcomeUnknown), owner := Some(release));
      Release(c, w, now);
      return Ok(());
    }

    // -------------------------------------------------------------------- runs

    method Apply(call: Call, now: real)
      requires Valid()
      modifies this`db
      ensures Valid() && Step(cfg, old(db), db)
    {
      match call {
        case StageTask(w, text) => var _ := StageTask(w, text);
        case Admit(w, s) => var _ := Admit(w, s, now);
        case PinPrompt(s, p) => var _ := PinPrompt(s, p);
        case Activate(s) => var _ := Activate(s, now);
        case MarkAmbiguous(s) => var _ := MarkAmbiguous(s);
        case Complete(s, o) => var _ := Complete(s, o, now);
        case RecordRootEvidence(w, k, e, s) => var _ := RecordRootEvidence(w, k, e, s);
        case ConfirmRootEvidence(w, c, e, s, f) => var _ := ConfirmRootEvidence(w, c, e, s, f);
        case Reconcile(s, w, es, f) => var _ := Reconcile(s, w, es, f);
        case ResolveRecommendation(i, d) => var _ := ResolveRecommendation(i, d, now);
        case RegisterCandidate(w, c) => var _ := RegisterCandidate(w, c);
        case TerminalizeCandidate(w, c, s, o) => var _ := TerminalizeCandidate(w, c, s, o, now);
        case RecordExactReuse(w, s, f, i, src) => var _ := RecordExactReuse(w, s, f, i, src);
        case ResolveUnknown(c, rel, ack) => var _ := ResolveUnknown(c, rel, ack, now);
      }
    }

    /** Any calls at any times, from any valid state: the states passed through form a run. */
    method Run(calls: seq<(Call, real)>) returns (ghost history: seq<Db>)
      requires Valid()
      modifies this`db
      ensures Valid() && |history| == |calls| + 1 && history[0] == old(db) && history[|calls|] == db
      ensures IsRun(cfg, history)
    {
      history := [db];
      for n := 0 to |calls|
        invariant Valid()
        invariant |history| == n + 1 && history[0] == old(db) && history[n] == db
        invariant IsRun(cfg, history)
      {
        Apply(calls[n].0, calls[n].1);
        RunExtends(cfg, history, db);
        history := history + [db];
      }
    }
  }
  /**
   * A fresh project comes to a standstill in four calls: its root is given a task and a slot, the slot is marked
   * ambiguous before a prompt is pinned, and from then on no outcome completes it.
   */
  method WedgeFreshProject(cfg: Config, task: string, slot: Name, outcome: string, now: real)
      returns (store: CoordinationStore, completed: Result<(), Refusal>)
    requires ConfigOk(cfg) && cfg.timeout > 0.0 && GoodOutcome(outcome)
    requires Text.Strip(task) != [] && Text.Utf8Length(task) <= MAX_TASK_BYTES
    ensures fresh(store) && store.Valid() && store.cfg == cfg
    ensures slot in store.db.slots && Wedged(store.db.slots[slot]) && completed.Err?
  {
    RootIsPaid(cfg);
    store := new CoordinationStore(cfg, now);
    var staged := store.StageTask(cfg.roster.root, task);
    var admitted := store.Admit(cfg.roster.root, slot, now);
    var marked;
    marked, completed := store.MarkThenComplete(slot, outcome, now);
  }
}
