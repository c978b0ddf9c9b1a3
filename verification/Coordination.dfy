/**
 * The coordinator's database as a value: what every committed state satisfies
 * and what one transaction may change.
 */
module Coordination {
  import opened Wrappers
  import opened Policy

  // ------------------------------------------------------------------- tables

  datatype Phase = Reasoning | CriticReview | OwnerAction
  datatype SlotState = Prepared | Active | Ambiguous | Terminal

  /** An obstacle review is named by a digest of exactly these fields. */
  datatype ReviewId = ReviewId(generation: nat, entry: Name, slot: Name, critic: Name)

  datatype Slot = Slot(worker: Name, lane: Lane, generation: nat, phase: Phase, state: SlotState, task: string,
                       prompt: Option<string>, outcome: Option<string>, review: Option<ReviewId>, root: Option<Name>)

  datatype TaskKey = TaskKey(worker: Name, generation: nat)
  datatype Task = Task(text: string, frozen: bool)

  datatype Kind = Obstacle | DeadEnd | Confirmation
  datatype Evidence =
    Evidence(generation: nat, slot: Name, worker: Name, lane: Lane, kind: Kind, confirms: Option<Name>)

  datatype ReviewState = Pending | Running | Confirmed | NotConfirmed | Resolved
  datatype Review = Review(state: ReviewState, criticSlot: Option<Name>, confirmation: Option<Name>)

  datatype Recommendation = Recommendation(generation: nat, review: ReviewId, root: Name, critic: Name)

  /** A candidate receipt is a digest of exactly these fields. */
  datatype Receipt = Receipt(slot: Name, fact: Name, identity: Name, source: Option<Name>, context: Name)
  datatype CandidateState = Live | Unknown | Closed
  datatype OwnerChoice = KnownNoPromotion | AbandonUnknown
  datatype OwnerRelease = OwnerRelease(choice: OwnerChoice, factActive: bool)
  datatype Candidate = Candidate(generation: nat, worker: Name, lane: Lane, state: CandidateState,
                                 outcome: Option<Outcome>, owner: Option<OwnerRelease>)

  datatype Db =
    Db(generation: nat, phase: Phase, deadline: real, recommendation: Option<Name>, activeReview: Option<ReviewId>,
                   slots: map<Name, Slot>, tasks: map<TaskKey, Task>, evidence: map<Name, Evidence>,
                   reviews: map<ReviewId, Review>, recommendations: map<Name, Recommendation>,
                   resolutions: map<Name, string>, candidates: map<Receipt, Candidate>)

  /** `binds` tells whether a prompt names this slot, generation and task; `reuse` is the exact-reuse digest. */
  datatype Config = Config(roster: Roster, maxPaid: nat, timeout: real,
                           binds: (Name, nat, string, string) -> bool,
                           reuse: (Name, Name, Name, Option<Name>) -> Name)

  ghost predicate ConfigOk(cfg: Config) { WellFormed(cfg.roster, cfg.maxPaid) }

  predicate Paid(cfg: Config, w: Name) { w in cfg.roster.lanes }

  function Initial(cfg: Config, now: real): Db {
    Db(1, Reasoning, now + cfg.timeout, None, None, map[], map[], map[], map[], map[], map[], map[])
  }

  // ---------------------------------------------------------------- slots

  predicate Open(s: Slot) { s.state != Terminal }

  ghost predicate SlotRow(cfg: Config, g: nat, ph: Phase, id: Name, s: Slot) {
    && Paid(cfg, s.worker) && s.lane == cfg.roster.lanes[s.worker]
    && 1 <= s.generation <= g
    && (s.phase == Reasoning || (s.phase == CriticReview && s.lane == Critic))
    && (Open(s) ==> s.generation == g && (s.phase == Reasoning <==> ph == Reasoning))
    && (s.generation == g && ph == Reasoning ==> s.phase == Reasoning)
    && (s.outcome.Some? <==> s.state == Terminal)
    && (s.review.Some? <==> s.phase == CriticReview)
    && (s.prompt.Some? ==> cfg.binds(id, s.generation, s.task, s.prompt.value))
    && (s.state == Active ==> s.prompt.Some?)
  }

  ghost predicate SameRound(a: Slot, b: Slot) {
    a.worker == b.worker && a.generation == b.generation && a.phase == b.phase
  }

  ghost predicate UniqueRounds(slots: map<Name, Slot>) {
    forall a, b {:trigger SameRound(slots[a], slots[b])} ::
      a in slots && b in slots && SameRound(slots[a], slots[b]) ==> a == b
  }

  ghost predicate IsDone(s: Slot, lane: Lane, g: nat, ph: Phase) {
    s.lane == lane && s.generation == g && s.phase == ph && s.state == Terminal
  }

  ghost predicate Done(slots: map<Name, Slot>, lane: Lane, g: nat, ph: Phase) {
    exists id :: id in slots && IsDone(slots[id], lane, g, ph)
  }

  /** Every lane the phase requires has a terminal slot in it. */
  ghost predicate RoundDone(cfg: Config, g: nat, ph: Phase, slots: map<Name, Slot>) {
    if ph == CriticReview then Done(slots, Critic, g, ph)
    else forall w :: w in cfg.roster.lanes ==> Done(slots, cfg.roster.lanes[w], g, ph)
  }

  ghost predicate SlotsOk(cfg: Config, g: nat, ph: Phase, slots: map<Name, Slot>) {
    && (forall id {:trigger SlotRow(cfg, g, ph, id, slots[id])} :: id in slots ==> SlotRow(cfg, g, ph, id, slots[id]))
    && UniqueRounds(slots)
    && (ph != Reasoning ==> RoundDone(cfg, g, Reasoning, slots))
  }

  // ---------------------------------------------------------------- tasks

  ghost predicate Bound(tasks: map<TaskKey, Task>, s: Slot) {
    var k := TaskKey(s.worker, s.generation);
    k in tasks && tasks[k] == Task(s.task, true)
  }

  function Horizon(g: nat, ph: Phase): nat { if ph == OwnerAction then g + 1 else g }

  ghost predicate TasksOk(cfg: Config, g: nat, ph: Phase, slots: map<Name, Slot>, tasks: map<TaskKey, Task>) {
    && (forall k :: k in tasks ==> Paid(cfg, k.worker) && 1 <= k.generation <= Horizon(g, ph))
    && (forall id {:trigger Bound(tasks, slots[id])} :: id in slots ==> Bound(tasks, slots[id]))
  }

  // ------------------------------------------------------- evidence and reviews

  /** Only root and critic slots give evidence; a critic's names the entry its slot was opened for. */
  ghost predicate EvidenceRow(slots: map<Name, Slot>, e: Evidence) {
    && e.slot in slots && slots[e.slot].worker == e.worker && slots[e.slot].lane == e.lane
    && slots[e.slot].generation == e.generation
    && (if e.lane == Root then e.kind != Confirmation && e.confirms == None
        else e.lane == Critic && e.kind == Confirmation && e.confirms.Some? && slots[e.slot].root == e.confirms)
  }

  ghost predicate EvidenceOk(slots: map<Name, Slot>, evidence: map<Name, Evidence>) {
    forall e {:trigger EvidenceRow(slots, evidence[e])} :: e in evidence ==> EvidenceRow(slots, evidence[e])
  }

  ghost predicate IsLive(v: Review) { v.state == Pending || v.state == Running || v.state == Confirmed }

  /** The root's evidence, from the root's own slot of that generation. */
  ghost predicate RootSide(cfg: Config, slots: map<Name, Slot>, evidence: map<Name, Evidence>, r: ReviewId) {
    && r.slot in slots && slots[r.slot].worker == cfg.roster.root && slots[r.slot].lane == Root
    && slots[r.slot].generation == r.generation
    && r.entry in evidence && evidence[r.entry].slot == r.slot && evidence[r.entry].generation == r.generation
    && evidence[r.entry].worker == cfg.roster.root && evidence[r.entry].lane == Root
    && evidence[r.entry].kind != Confirmation
  }

  /** The slot `s` was opened for review `r`, for its critic and in its generation. */
  ghost predicate CriticSide(slots: map<Name, Slot>, r: ReviewId, s: Name) {
    && s in slots && slots[s].worker == r.critic && slots[s].lane == Critic && slots[s].generation == r.generation
    && slots[s].phase == CriticReview && slots[s].review == Some(r) && slots[s].root == Some(r.entry)
  }

  ghost predicate ConfirmedBy(evidence: map<Name, Evidence>, r: ReviewId, s: Name, e: Name) {
    e in evidence && evidence[e] == Evidence(r.generation, s, r.critic, Critic, Confirmation, Some(r.entry))
  }

  ghost predicate ReviewRow(cfg: Config, g: nat, slots: map<Name, Slot>, evidence: map<Name, Evidence>, r: ReviewId,
                            v: Review) {
    && cfg.roster.critic == Some(r.critic) && r.generation <= g && RootSide(cfg, slots, evidence, r)
    && (v.criticSlot.None? <==> v.state == Pending)
    && (v.criticSlot.Some? ==> CriticSide(slots, r, v.criticSlot.value))
    && (v.confirmation.Some? <==> v.state == Confirmed || v.state == Resolved)
    && (v.confirmation.Some? ==>
         v.criticSlot.Some? && ConfirmedBy(evidence, r, v.criticSlot.value, v.confirmation.value))
  }

  ghost predicate SameRoot(r: ReviewId, q: ReviewId) { r.slot == q.slot }

  ghost predicate ReviewsOk(cfg: Config, g: nat, slots: map<Name, Slot>, evidence: map<Name, Evidence>,
                            reviews: map<ReviewId, Review>) {
    && (forall r {:trigger ReviewRow(cfg, g, slots, evidence, r, reviews[r])} :: r in reviews ==>
         ReviewRow(cfg, g, slots, evidence, r, reviews[r]))
    && (forall r, q {:trigger SameRoot(r, q)} :: r in reviews && q in reviews && SameRoot(r, q) ==> r == q)
    && (forall id {:trigger BackLink(reviews, id, slots[id])} :: id in slots ==> BackLink(reviews, id, slots[id]))
  }

  ghost predicate BackLink(reviews: map<ReviewId, Review>, id: Name, s: Slot) {
    s.review.Some? ==> s.review.value in reviews && reviews[s.review.value].criticSlot == Some(id)
  }

  /** The project's pointer names the live review, whose state fits the phase. */
  ghost predicate PointerOk(g: nat, ph: Phase, active: Option<ReviewId>, reviews: map<ReviewId, Review>) {
    && (forall r {:trigger IsLive(reviews[r])} :: r in reviews ==> (IsLive(reviews[r]) <==> active == Some(r)))
    && (active.Some? ==> active.value in reviews && active.value.generation == g)
    && (ph == Reasoning && active.Some? ==> reviews[active.value].state == Pending)
    && (ph == CriticReview ==> active.Some? && reviews[active.value].state != Confirmed)
    && (ph == OwnerAction ==> active.Some? && reviews[active.value].state == Confirmed)
  }

  // ------------------------------------------------ recommendations, candidates

  ghost predicate RecommendationRow(open: Option<Name>, reviews: map<ReviewId, Review>, resolutions: map<Name, string>,
                                    i: Name, c: Recommendation) {
    && c.review in reviews && c.generation == c.review.generation && c.root == c.review.entry
    && reviews[c.review].confirmation == Some(c.critic)
    && (i in resolutions <==> open != Some(i))
    && (reviews[c.review].state == Confirmed <==> open == Some(i))
  }

  ghost predicate SameReview(a: Recommendation, b: Recommendation) { a.review == b.review }

  ghost predicate RecommendationsOk(ph: Phase, active: Option<ReviewId>, open: Option<Name>,
                                    reviews: map<ReviewId, Review>, recs: map<Name, Recommendation>,
                                    resolutions: map<Name, string>) {
    && (forall i {:trigger RecommendationRow(open, reviews, resolutions, i, recs[i])} :: i in recs ==>
         RecommendationRow(open, reviews, resolutions, i, recs[i]))
    && (forall i :: i in resolutions ==> i in recs)
    && (forall i, j {:trigger SameReview(recs[i], recs[j])} ::
         i in recs && j in recs && SameReview(recs[i], recs[j]) ==> i == j)
    && (open.Some? <==> ph == OwnerAction)
    && (open.Some? ==> open.value in recs && active == Some(recs[open.value].review))
  }

  ghost predicate IsOverlay(c: Candidate) { c.state == Live || c.state == Unknown }

  ghost predicate CandidateRow(g: nat, slots: map<Name, Slot>, c: Receipt, v: Candidate) {
    && c.slot in slots && slots[c.slot].worker == v.worker && slots[c.slot].lane == v.lane
    && slots[c.slot].generation == v.generation
    && (IsOverlay(v) ==> v.generation == g)
    && (v.state == Live ==> v.outcome == None)
    && (v.state == Unknown ==> v.outcome == Some(OutcomeUnknown))
    && (v.state == Closed ==> v.outcome.Some?)
    && (v.owner.Some? ==> v.state == Closed && v.outcome == Some(OutcomeUnknown))
  }

  ghost predicate CandidatesOk(g: nat, slots: map<Name, Slot>, cs: map<Receipt, Candidate>) {
    && (forall c {:trigger CandidateRow(g, slots, c, cs[c])} :: c in cs ==> CandidateRow(g, slots, c, cs[c]))
    && (forall c, d :: c in cs && d in cs && IsOverlay(cs[c]) && IsOverlay(cs[d]) ==> c == d)
  }

  ghost predicate Overlay(cs: map<Receipt, Candidate>) { exists c :: c in cs && IsOverlay(cs[c]) }

  // ---------------------------------------------------------------- invariant

  /** Everything but quiescence; also holds in the middle of a transaction. */
  ghost predicate Core(cfg: Config, t: Db) {
    && ConfigOk(cfg) && t.generation >= 1
    && SlotsOk(cfg, t.generation, t.phase, t.slots)
    && TasksOk(cfg, t.generation, t.phase, t.slots, t.tasks)
    && EvidenceOk(t.slots, t.evidence)
    && ReviewsOk(cfg, t.generation, t.slots, t.evidence, t.reviews)
    && PointerOk(t.generation, t.phase, t.activeReview, t.reviews)
    && RecommendationsOk(t.phase, t.activeReview, t.recommendation, t.reviews, t.recommendations, t.resolutions)
    && CandidatesOk(t.generation, t.slots, t.candidates)
  }

  ghost predicate Ready(cfg: Config, t: Db) {
    t.phase != OwnerAction && !Overlay(t.candidates) && RoundDone(cfg, t.generation, t.phase, t.slots)
  }

  /** What every committed state satisfies: in particular it never waits to be advanced. */
  ghost predicate Inv(cfg: Config, t: Db) { Core(cfg, t) && !Ready(cfg, t) }

  lemma InitialHolds(cfg: Config, now: real)
    requires ConfigOk(cfg)
    ensures Inv(cfg, Initial(cfg, now))
  {
    var t := Initial(cfg, now);
    assert !Done(t.slots, cfg.roster.lanes[cfg.roster.root], 1, Reasoning);
  }

  // ------------------------------------------------ what the invariant implies

  /** At most one slot is open on each lane, and in the owner phase only the critic's review slot can be. */
  lemma OneOpenSlotPerLane(cfg: Config, t: Db, a: Name, b: Name)
    requires Core(cfg, t) && a in t.slots && b in t.slots && Open(t.slots[a]) && Open(t.slots[b])
    ensures t.slots[a].lane == t.slots[b].lane ==> a == b
    ensures t.slots[a].generation == t.generation
    ensures t.phase == OwnerAction ==>
         && t.slots[a].lane == Critic && t.slots[a].phase == CriticReview
         && t.slots[a].review == t.activeReview && t.reviews[t.activeReview.value].criticSlot == Some(a)
  {
    assert SlotRow(cfg, t.generation, t.phase, a, t.slots[a]) && SlotRow(cfg, t.generation, t.phase, b, t.slots[b]);
    LaneIdentifiesWorker(cfg.roster, cfg.maxPaid, t.slots[a].worker, t.slots[b].worker);
    if t.slots[a].lane == t.slots[b].lane { assert SameRound(t.slots[a], t.slots[b]); }
    if t.phase == OwnerAction { ReviewSlotIsActive(cfg, t, a); }
  }

  /** An open review slot belongs to the live review. */
  lemma ReviewSlotIsActive(cfg: Config, t: Db, id: Name)
    requires Core(cfg, t) && id in t.slots && Open(t.slots[id]) && t.phase != Reasoning
    ensures t.slots[id].review.Some? && t.activeReview == t.slots[id].review
    ensures t.slots[id].review.value in t.reviews && t.reviews[t.slots[id].review.value].criticSlot == Some(id)
  {
    assert SlotRow(cfg, t.generation, t.phase, id, t.slots[id]);
    LiveHasSlot(cfg, t.generation, t.phase, t.slots, t.evidence, t.reviews, t.activeReview, id);
  }

  /** Two reviews of one generation come from the same root slot, hence are the same. */
  lemma OneReviewPerGeneration(cfg: Config, g: nat, ph: Phase, slots: map<Name, Slot>, evidence: map<Name, Evidence>,
                               reviews: map<ReviewId, Review>, r: ReviewId, q: ReviewId)
    requires SlotsOk(cfg, g, ph, slots) && ReviewsOk(cfg, g, slots, evidence, reviews)
    requires r in reviews && q in reviews && r.generation == q.generation
    ensures r == q
  {
    assert ReviewRow(cfg, g, slots, evidence, r, reviews[r]) && ReviewRow(cfg, g, slots, evidence, q, reviews[q]);
    assert SlotRow(cfg, g, ph, r.slot, slots[r.slot]) && SlotRow(cfg, g, ph, q.slot, slots[q.slot]);
    assert SameRound(slots[r.slot], slots[q.slot]) && SameRoot(r, q);
  }

  /** In the current generation a review slot exists only for the live review. */
  lemma LiveHasSlot(cfg: Config, g: nat, ph: Phase, slots: map<Name, Slot>, evidence: map<Name, Evidence>,
                    reviews: map<ReviewId, Review>, active: Option<ReviewId>, id: Name)
    requires SlotsOk(cfg, g, ph, slots) && ReviewsOk(cfg, g, slots, evidence, reviews)
    requires PointerOk(g, ph, active, reviews)
    requires id in slots && slots[id].phase == CriticReview && slots[id].generation == g
    ensures ph != Reasoning && active.Some? && slots[id].review == active && active.value in reviews
    ensures reviews[active.value].criticSlot == Some(id)
  {
    assert SlotRow(cfg, g, ph, id, slots[id]) && BackLink(reviews, id, slots[id]);
    var r := slots[id].review.value;
    assert ReviewRow(cfg, g, slots, evidence, r, reviews[r]);
    OneReviewPerGeneration(cfg, g, ph, slots, evidence, reviews, r, active.value);
  }

  ghost function OpenSlots(slots: map<Name, Slot>): set<Name> { set id | id in slots && Open(slots[id]) }

  lemma {:induction false} InjectionBounds(ids: set<Name>, f: map<Name, Name>, into: set<Name>)
    requires forall i :: i in ids ==> i in f && f[i] in into
    requires forall i, j :: i in ids && j in ids && f[i] == f[j] ==> i == j
    ensures |ids| <= |into|
    decreases ids
  {
    if ids != {} {
      var i :| i in ids;
      InjectionBounds(ids - {i}, f, into - {f[i]});
    }
  }

  /** The paid cap holds by construction of the lanes. */
  lemma OpenSlotsBounded(cfg: Config, t: Db)
    requires Core(cfg, t)
    ensures |OpenSlots(t.slots)| <= |cfg.roster.lanes| <= cfg.maxPaid
  {
    var f := map id | id in t.slots :: t.slots[id].worker;
    OpenWorkersDiffer(cfg, t, f);
    InjectionBounds(OpenSlots(t.slots), f, cfg.roster.lanes.Keys);
  }

  lemma OpenWorkersDiffer(cfg: Config, t: Db, f: map<Name, Name>)
    requires Core(cfg, t) && f == map id | id in t.slots :: t.slots[id].worker
    ensures forall i, j :: i in OpenSlots(t.slots) && j in OpenSlots(t.slots) && f[i] == f[j] ==> i == j
    ensures forall i :: i in OpenSlots(t.slots) ==> Paid(cfg, f[i])
  {
    forall i | i in OpenSlots(t.slots) ensures Paid(cfg, f[i]) {
      assert SlotRow(cfg, t.generation, t.phase, i, t.slots[i]);
    }
    forall i, j | i in OpenSlots(t.slots) && j in OpenSlots(t.slots) && f[i] == f[j] ensures i == j {
      assert SlotRow(cfg, t.generation, t.phase, i, t.slots[i]) && SlotRow(cfg, t.generation, t.phase, j, t.slots[j]);
      OneOpenSlotPerLane(cfg, t, i, j);
    }
  }

  /** A worker without an open slot leaves room under the cap, so the cap never refuses a lane. */
  lemma RoomForWorker(cfg: Config, t: Db, w: Name)
    requires Core(cfg, t) && Paid(cfg, w)
    requires forall id :: id in t.slots && t.slots[id].worker == w ==> !Open(t.slots[id])
    ensures |OpenSlots(t.slots)| < cfg.maxPaid
  {
    var f := map id | id in t.slots :: t.slots[id].worker;
    var all := cfg.roster.lanes.Keys;
    OpenWorkersDiffer(cfg, t, f);
    InjectionBounds(OpenSlots(t.slots), f, all - {w});
    assert |all - {w}| == |all| - 1;
  }

  /** The owner gate: open exactly while the active review is confirmed, on evidence of two distinct slots. */
  lemma OwnerGateProvenance(cfg: Config, t: Db)
    requires Core(cfg, t)
    ensures t.phase == OwnerAction <==> t.recommendation.Some?
    ensures t.phase == OwnerAction <==> (t.activeReview.Some? && t.reviews[t.activeReview.value].state == Confirmed)
    ensures t.phase == OwnerAction ==>
      var r := t.activeReview.value;
      var v := t.reviews[r];
      && r.generation == t.generation && v.criticSlot.Some? && v.confirmation.Some?
      && RootSide(cfg, t.slots, t.evidence, r) && CriticSide(t.slots, r, v.criticSlot.value)
      && ConfirmedBy(t.evidence, r, v.criticSlot.value, v.confirmation.value)
      && r.slot != v.criticSlot.value && cfg.roster.critic == Some(r.critic)
      && t.recommendations[t.recommendation.value] == Recommendation(t.generation, r, r.entry, v.confirmation.value)
  {
    if t.activeReview.Some? {
      var r := t.activeReview.value;
      assert ReviewRow(cfg, t.generation, t.slots, t.evidence, r, t.reviews[r]);
    }
    if t.recommendation.Some? {
      var i := t.recommendation.value;
      assert RecommendationRow(t.recommendation, t.reviews, t.resolutions, i, t.recommendations[i]);
    }
  }

  /** The uniqueness constraints the schema declares beyond its primary keys hold in every state, so none can reject a
      write. */
  lemma DeclaredUniqueness(cfg: Config, t: Db)
    requires Core(cfg, t)
    ensures forall r, q :: r in t.reviews && q in t.reviews && r.entry == q.entry ==> r == q
    ensures forall r, q ::
      r in t.reviews && q in t.reviews && t.reviews[r].criticSlot.Some? ==>
      t.reviews[r].criticSlot == t.reviews[q].criticSlot ==> r == q
    ensures forall r, q ::
      r in t.reviews && q in t.reviews && t.reviews[r].confirmation.Some? ==>
      t.reviews[r].confirmation == t.reviews[q].confirmation ==> r == q
    ensures forall r, q :: r in t.reviews && q in t.reviews && IsLive(t.reviews[r]) && IsLive(t.reviews[q]) ==> r == q
    ensures forall i, j ::
      i in t.recommendations && j in t.recommendations ==>
      t.recommendations[i].root == t.recommendations[j].root ==> i == j
  {
    forall r, q | r in t.reviews && q in t.reviews
      ensures r.entry == q.entry ==> r == q
      ensures t.reviews[r].criticSlot.Some? && t.reviews[r].criticSlot == t.reviews[q].criticSlot ==> r == q
      ensures t.reviews[r].confirmation.Some? && t.reviews[r].confirmation == t.reviews[q].confirmation ==> r == q
    {
      assert ReviewRow(cfg, t.generation, t.slots, t.evidence, r, t.reviews[r]);
      assert ReviewRow(cfg, t.generation, t.slots, t.evidence, q, t.reviews[q]);
      if r.slot == q.slot { assert SameRoot(r, q); }
    }
    forall i, j |
      i in t.recommendations && j in t.recommendations && t.recommendations[i].root == t.recommendations[j].root
      ensures i == j
    {
      assert RecommendationRow(t.recommendation, t.reviews, t.resolutions, i, t.recommendations[i]);
      assert RecommendationRow(t.recommendation, t.reviews, t.resolutions, j, t.recommendations[j]);
      var r, q := t.recommendations[i].review, t.recommendations[j].review;
      assert ReviewRow(cfg, t.generation, t.slots, t.evidence, r, t.reviews[r]);
      assert ReviewRow(cfg, t.generation, t.slots, t.evidence, q, t.reviews[q]);
      assert SameRoot(r, q) && SameReview(t.recommendations[i], t.recommendations[j]);
    }
  }

  // ------------------------------------------------------------------- history

  ghost predicate SameIdentity(a: Slot, b: Slot) {
    && a.worker == b.worker && a.lane == b.lane && a.generation == b.generation && a.phase == b.phase
    && a.task == b.task && a.review == b.review && a.root == b.root
  }

  /** A dispatched slot without a prompt: the binding audit rejects it from then on. */
  ghost predicate Wedged(s: Slot) { s.state == Ambiguous && s.prompt == None }

  /** How one slot may change: a pin is immutable, a terminal slot and a wedged one never change. */
  ghost predicate SlotLater(a: Slot, b: Slot) {
    && SameIdentity(a, b) && (a.prompt.Some? ==> b.prompt == a.prompt)
    && (!Open(a) || Wedged(a) ==> b == a)
  }

  ghost predicate ReviewLater(a: Review, b: Review) {
    && (a.criticSlot.Some? ==> b.criticSlot == a.criticSlot)
    && (a.confirmation.Some? ==> b.confirmation == a.confirmation)
    && (!IsLive(a) ==> b == a)
  }

  ghost predicate SlotsLater(a: map<Name, Slot>, b: map<Name, Slot>) {
    forall id :: id in a ==> id in b && SlotLater(a[id], b[id])
  }

  ghost predicate TasksLater(a: map<TaskKey, Task>, b: map<TaskKey, Task>) {
    forall k :: k in a ==> k in b && (a[k].frozen ==> b[k] == a[k])
  }

  ghost predicate ReviewsLater(a: map<ReviewId, Review>, b: map<ReviewId, Review>) {
    forall r :: r in a ==> r in b && ReviewLater(a[r], b[r])
  }

  ghost predicate CandidatesLater(a: map<Receipt, Candidate>, b: map<Receipt, Candidate>) {
    forall c :: c in a ==> c in b && (a[c].state == Closed ==> b[c] == a[c])
  }

  ghost predicate Extends<K, V>(a: map<K, V>, b: map<K, V>) { forall k :: k in a ==> k in b && b[k] == a[k] }

  /** What holds between any state and any later one. */
  ghost predicate Later(a: Db, b: Db) {
    && a.generation <= b.generation
    && SlotsLater(a.slots, b.slots) && TasksLater(a.tasks, b.tasks) && ReviewsLater(a.reviews, b.reviews)
    && CandidatesLater(a.candidates, b.candidates)
    && Extends(a.evidence, b.evidence) && Extends(a.recommendations, b.recommendations)
    && Extends(a.resolutions, b.resolutions)
  }

  lemma LaterReflexive(a: Db)
    ensures Later(a, a)
  {}

  lemma LaterTransitive(a: Db, b: Db, c: Db)
    requires Later(a, b) && Later(b, c)
    ensures Later(a, c)
  {}

  /** The tasks of the next generation are those of this one, byte for byte, and not yet frozen. */
  ghost predicate CarriedForward(cfg: Config, a: Db, b: Db) {
    && (forall w :: Paid(cfg, w) ==>
         && TaskKey(w, a.generation) in a.tasks && TaskKey(w, a.generation + 1) in b.tasks
         && b.tasks[TaskKey(w, a.generation + 1)] == Task(a.tasks[TaskKey(w, a.generation)].text, false))
    && (forall k :: k in b.tasks && k.generation <= a.generation ==> k in a.tasks && a.tasks[k] == b.tasks[k])
  }

  /** The next generation's staged tasks are complete, and are now all frozen with the staged bytes. */
  ghost predicate FrozenWhole(cfg: Config, a: Db, b: Db) {
    forall w :: Paid(cfg, w) ==>
      && TaskKey(w, a.generation + 1) in a.tasks && TaskKey(w, a.generation + 1) in b.tasks
      && b.tasks[TaskKey(w, a.generation + 1)] == Task(a.tasks[TaskKey(w, a.generation + 1)].text, true)
  }

  /** A generation ends only with every slot terminal, and carries its tasks forward unless the owner set new ones. */
  ghost predicate GenerationRule(cfg: Config, a: Db, b: Db) {
    && (b.generation == a.generation || b.generation == a.generation + 1)
    && (b.generation > a.generation ==>
         b.phase == Reasoning && b.slots.Keys == a.slots.Keys && forall id :: id in b.slots ==> !Open(b.slots[id]))
    && (b.generation > a.generation && a.phase != OwnerAction ==> CarriedForward(cfg, a, b))
  }

  /** The owner phase is entered from the critic's review and left only by one resolution. */
  ghost predicate OwnerRule(cfg: Config, a: Db, b: Db) {
    && (b.phase == OwnerAction && a.phase != OwnerAction ==> a.phase == CriticReview && b.generation == a.generation)
    && (a.phase == OwnerAction && b.phase != OwnerAction ==>
         && b.generation == a.generation + 1 && FrozenWhole(cfg, a, b)
         && a.recommendation.Some? && a.recommendation.value !in a.resolutions
         && b.resolutions.Keys == a.resolutions.Keys + {a.recommendation.value})
    && (a.phase == OwnerAction && b.phase == OwnerAction ==>
         b.recommendation == a.recommendation && b.activeReview == a.activeReview && b.resolutions == a.resolutions)
  }

  /** A candidate overlay freezes admission, staging, advance and resolution. */
  ghost predicate OverlayRule(a: Db, b: Db) {
    Overlay(a.candidates) && Overlay(b.candidates) ==>
      && b.slots.Keys == a.slots.Keys && b.tasks == a.tasks && b.generation == a.generation
      && b.resolutions == a.resolutions
      && (b.phase == a.phase || (a.phase == CriticReview && b.phase == OwnerAction))
  }

  /** A deadline is set only where paid work begins: for a new generation or for the critic's review. */
  ghost predicate DeadlineRule(a: Db, b: Db) {
    b.deadline != a.deadline ==> b.generation > a.generation || (a.phase == Reasoning && b.phase == CriticReview)
  }

  /** What one committed transaction may do. */
  ghost predicate Step(cfg: Config, a: Db, b: Db) {
    Later(a, b) && GenerationRule(cfg, a, b) && OwnerRule(cfg, a, b) && OverlayRule(a, b) && DeadlineRule(a, b)
  }

  lemma StayStep(cfg: Config, a: Db, b: Db)
    requires Later(a, b) && b.generation == a.generation && b.phase == a.phase
    requires b.recommendation == a.recommendation && b.resolutions == a.resolutions && b.deadline == a.deadline
    requires a.phase == OwnerAction ==> b.activeReview == a.activeReview
    requires Overlay(a.candidates) && Overlay(b.candidates) ==> b.slots.Keys == a.slots.Keys && b.tasks == a.tasks
    ensures Step(cfg, a, b)
  {}

  lemma StepReflexive(cfg: Config, a: Db)
    ensures Step(cfg, a, a)
  {
    LaterReflexive(a);
    StayStep(cfg, a, a);
  }

  /** Each state one transaction after the one before. */
  ghost predicate Stepwise(cfg: Config, h: seq<Db>)
    decreases |h|
  {
    |h| > 1 ==> Stepwise(cfg, h[..|h| - 1]) && Step(cfg, h[|h| - 2], h[|h| - 1])
  }

  ghost predicate IsRun(cfg: Config, h: seq<Db>) {
    h != [] && Stepwise(cfg, h) && forall i :: 0 <= i < |h| ==> Inv(cfg, h[i])
  }

  lemma RunExtends(cfg: Config, h: seq<Db>, b: Db)
    requires IsRun(cfg, h) && Inv(cfg, b) && Step(cfg, h[|h| - 1], b)
    ensures IsRun(cfg, h + [b])
  {
    assert (h + [b])[..|h|] == h;
  }

  /** What is frozen, pinned, terminal, resolved or recorded anywhere in a run stays so to its end. */
  lemma {:induction false} RunKeeps(cfg: Config, h: seq<Db>, i: nat, j: nat)
    requires Stepwise(cfg, h) && i <= j < |h|
    ensures Later(h[i], h[j])
    decreases |h|
  {
    var n := |h| - 1;
    if i == j {
      LaterReflexive(h[j]);
    } else if j < n {
      RunKeeps(cfg, h[..n], i, j);
    } else {
      RunKeeps(cfg, h[..n], i, n - 1);
      StepIsLater(cfg, h[n - 1], h[n]);
      LaterTransitive(h[i], h[n - 1], h[n]);
    }
  }

  lemma StepIsLater(cfg: Config, a: Db, b: Db)
    requires Step(cfg, a, b)
    ensures Later(a, b)
  {}

  /** A wedged slot stops its project: it stays open and the generation never changes again. */
  lemma WedgedForever(cfg: Config, a: Db, b: Db, id: Name)
    requires Inv(cfg, a) && Inv(cfg, b) && Later(a, b) && id in a.slots && Wedged(a.slots[id])
    ensures id in b.slots && b.slots[id] == a.slots[id] && b.generation == a.generation
  {
    assert SlotRow(cfg, a.generation, a.phase, id, a.slots[id]) && SlotRow(cfg, b.generation, b.phase, id, b.slots[id]);
  }
}
