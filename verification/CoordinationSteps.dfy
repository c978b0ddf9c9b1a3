/** The row changes the coordinator's transactions are made of, and that each keeps the invariant. */
module CoordinationSteps {
  import opened Wrappers
  import opened Policy
  import opened Coordination

  // -------------------------------------------------------- generation advance

  /** Tasks of generation `g` copied, unfrozen, to the next. */
  ghost function Carried(cfg: Config, g: nat, tasks: map<TaskKey, Task>): map<TaskKey, Task> {
    CarriedFor(Workers(cfg.roster), g, tasks)
  }

  ghost function CarriedFor(workers: seq<Name>, g: nat, tasks: map<TaskKey, Task>): map<TaskKey, Task> {
    if workers == [] then tasks
    else
      var n := |workers| - 1;
      var more := CarriedFor(workers[..n], g, tasks);
      var k := TaskKey(workers[n], g);
      if k in tasks then more[TaskKey(workers[n], g + 1) := Task(tasks[k].text, false)] else more
  }

  lemma {:induction false} CarriedForAt(workers: seq<Name>, g: nat, tasks: map<TaskKey, Task>, k: TaskKey)
    requires forall w :: w in workers ==> TaskKey(w, g) in tasks
    ensures k in CarriedFor(workers, g, tasks) <==> k in tasks || (k.generation == g + 1 && k.worker in workers)
    ensures k.generation == g + 1 && k.worker in workers ==>
      CarriedFor(workers, g, tasks)[k] == Task(tasks[TaskKey(k.worker, g)].text, false)
    ensures k in tasks && !(k.generation == g + 1 && k.worker in workers) ==>
      CarriedFor(workers, g, tasks)[k] == tasks[k]
    decreases |workers|
  {
    if workers != [] {
      var n := |workers| - 1;
      CarriedForAt(workers[..n], g, tasks, k);
      assert workers == workers[..n] + [workers[n]];
    }
  }

  /** The review that a finished critic round leaves unconfirmed. */
  ghost function Abandoned(t: Db): map<ReviewId, Review> {
    if t.phase == CriticReview && t.activeReview.Some? && t.activeReview.value in t.reviews
    then t.reviews[t.activeReview.value := t.reviews[t.activeReview.value].(state := NotConfirmed)]
    else t.reviews
  }

  /** What a ready project becomes; any other stays as it is. */
  ghost function Advanced(cfg: Config, t: Db, now: real): Db {
    if !Ready(cfg, t) then t
    else if t.phase == Reasoning && t.activeReview.Some? then t.(phase := CriticReview, deadline := now + cfg.timeout)
    else NextGeneration(cfg, t, Carried(cfg, t.generation, t.tasks), Abandoned(t), now)
  }

  ghost function NextGeneration(cfg: Config, t: Db, tasks: map<TaskKey, Task>, reviews: map<ReviewId, Review>,
                          now: real): Db {
    t.(generation := t.generation + 1, phase := Reasoning, deadline := now + cfg.timeout, activeReview := None,
       tasks := tasks, reviews := reviews)
  }

  /** A finished round leaves no slot open. */
  lemma NoneOpen(cfg: Config, g: nat, ph: Phase, slots: map<Name, Slot>, id: Name)
    requires ConfigOk(cfg) && SlotsOk(cfg, g, ph, slots) && ph != OwnerAction && RoundDone(cfg, g, ph, slots)
    requires id in slots
    ensures !Open(slots[id])
  {
    var s := slots[id];
    assert SlotRow(cfg, g, ph, id, s);
    if Open(s) {
      assert Done(slots, s.lane, g, ph);
      var d :| d in slots && IsDone(slots[d], s.lane, g, ph);
      assert SlotRow(cfg, g, ph, d, slots[d]);
      LaneIdentifiesWorker(cfg.roster, cfg.maxPaid, s.worker, slots[d].worker);
      assert SameRound(s, slots[d]);
    }
  }

  lemma ReviewPhaseSlots(cfg: Config, g: nat, slots: map<Name, Slot>)
    requires ConfigOk(cfg) && SlotsOk(cfg, g, Reasoning, slots) && RoundDone(cfg, g, Reasoning, slots)
    ensures SlotsOk(cfg, g, CriticReview, slots) && !RoundDone(cfg, g, CriticReview, slots)
  {
    forall id | id in slots ensures SlotRow(cfg, g, CriticReview, id, slots[id]) {
      NoneOpen(cfg, g, Reasoning, slots, id);
      assert SlotRow(cfg, g, Reasoning, id, slots[id]);
    }
    forall d | d in slots ensures !IsDone(slots[d], Critic, g, CriticReview) {
      assert SlotRow(cfg, g, Reasoning, d, slots[d]);
    }
  }

  lemma AdvanceToReview(cfg: Config, t: Db, now: real)
    requires Core(cfg, t) && Ready(cfg, t) && t.phase == Reasoning && t.activeReview.Some?
    ensures Inv(cfg, Advanced(cfg, t, now)) && Step(cfg, t, Advanced(cfg, t, now))
  {
    ReviewPhaseSlots(cfg, t.generation, t.slots);
    LaterReflexive(t);
  }

  /** When the critic's round is over, its review is running. */
  lemma ReviewIsRunning(cfg: Config, g: nat, slots: map<Name, Slot>, evidence: map<Name, Evidence>,
                        reviews: map<ReviewId, Review>, active: Option<ReviewId>)
    requires SlotsOk(cfg, g, CriticReview, slots) && ReviewsOk(cfg, g, slots, evidence, reviews)
    requires PointerOk(g, CriticReview, active, reviews)
    requires RoundDone(cfg, g, CriticReview, slots)
    ensures active.Some? && active.value in reviews && reviews[active.value].state == Running
    ensures reviews[active.value].confirmation.None?
  {
    var d :| d in slots && IsDone(slots[d], Critic, g, CriticReview);
    LiveHasSlot(cfg, g, CriticReview, slots, evidence, reviews, active, d);
    assert IsLive(reviews[active.value]);
    assert ReviewRow(cfg, g, slots, evidence, active.value, reviews[active.value]);
  }

  /** Every paid worker's current task is frozen once its slot exists. */
  lemma TasksAreFrozen(cfg: Config, g: nat, ph: Phase, slots: map<Name, Slot>, tasks: map<TaskKey, Task>, w: Name)
    requires ConfigOk(cfg) && SlotsOk(cfg, g, ph, slots) && TasksOk(cfg, g, ph, slots, tasks)
    requires Paid(cfg, w) && Done(slots, cfg.roster.lanes[w], g, Reasoning)
    ensures TaskKey(w, g) in tasks && tasks[TaskKey(w, g)].frozen
  {
    var d :| d in slots && IsDone(slots[d], cfg.roster.lanes[w], g, Reasoning);
    assert SlotRow(cfg, g, ph, d, slots[d]) && Bound(tasks, slots[d]);
    LaneIdentifiesWorker(cfg.roster, cfg.maxPaid, w, slots[d].worker);
  }

  /** The exact frozen task set that a finished generation has. */
  ghost predicate WholeAndFrozen(cfg: Config, g: nat, tasks: map<TaskKey, Task>) {
    && (forall w :: Paid(cfg, w) ==> TaskKey(w, g) in tasks && tasks[TaskKey(w, g)].frozen)
    && (forall k :: k in tasks ==> Paid(cfg, k.worker) && 1 <= k.generation <= g)
  }

  lemma FinishedTasks(cfg: Config, g: nat, ph: Phase, slots: map<Name, Slot>, tasks: map<TaskKey, Task>)
    requires ConfigOk(cfg) && SlotsOk(cfg, g, ph, slots) && TasksOk(cfg, g, ph, slots, tasks) && ph != OwnerAction
    requires RoundDone(cfg, g, Reasoning, slots)
    ensures WholeAndFrozen(cfg, g, tasks)
  {
    forall w | Paid(cfg, w) ensures TaskKey(w, g) in tasks && tasks[TaskKey(w, g)].frozen {
      assert Done(slots, cfg.roster.lanes[w], g, Reasoning);
      TasksAreFrozen(cfg, g, ph, slots, tasks, w);
    }
  }

  /** Where a carried task comes from. */
  lemma CarriedAt(cfg: Config, g: nat, tasks: map<TaskKey, Task>, k: TaskKey)
    requires ConfigOk(cfg) && WholeAndFrozen(cfg, g, tasks)
    ensures k in Carried(cfg, g, tasks) <==> k in tasks || (k.generation == g + 1 && Paid(cfg, k.worker))
    ensures k in tasks ==> Carried(cfg, g, tasks)[k] == tasks[k]
    ensures k.generation == g + 1 && Paid(cfg, k.worker) ==>
      Carried(cfg, g, tasks)[k] == Task(tasks[TaskKey(k.worker, g)].text, false)
  {
    forall w | w in Workers(cfg.roster) ensures TaskKey(w, g) in tasks {
      assert HasLane(cfg.roster, w); assert Paid(cfg, w);
    }
    CarriedForAt(Workers(cfg.roster), g, tasks, k);
    assert HasLane(cfg.roster, k.worker);
  }

  /** A task set that carries another forward. */
  ghost predicate Carries(cfg: Config, g: nat, tasks: map<TaskKey, Task>, next: map<TaskKey, Task>) {
    && TasksLater(tasks, next)
    && (forall k :: k in next ==> Paid(cfg, k.worker) && 1 <= k.generation <= g + 1)
    && (forall w :: Paid(cfg, w) ==>
         && TaskKey(w, g) in tasks && TaskKey(w, g + 1) in next
         && next[TaskKey(w, g + 1)] == Task(tasks[TaskKey(w, g)].text, false))
    && (forall k :: k in next && k.generation <= g ==> k in tasks && tasks[k] == next[k])
  }

  lemma CarriedIs(cfg: Config, g: nat, tasks: map<TaskKey, Task>)
    requires ConfigOk(cfg) && WholeAndFrozen(cfg, g, tasks)
    ensures Carries(cfg, g, tasks, Carried(cfg, g, tasks))
  {
    forall k
      ensures k in tasks ==> k in Carried(cfg, g, tasks) && Carried(cfg, g, tasks)[k] == tasks[k]
      ensures k in Carried(cfg, g, tasks) ==>
        Paid(cfg, k.worker) && 1 <= k.generation <= g + 1 && (k.generation <= g ==> k in tasks)
    {
      CarriedAt(cfg, g, tasks, k);
    }
    forall w | Paid(cfg, w)
      ensures TaskKey(w, g) in tasks && TaskKey(w, g + 1) in Carried(cfg, g, tasks)
        && Carried(cfg, g, tasks)[TaskKey(w, g + 1)] == Task(tasks[TaskKey(w, g)].text, false)
    {
      CarriedAt(cfg, g, tasks, TaskKey(w, g + 1));
    }
  }

  lemma RootIsPaid(cfg: Config)
    requires ConfigOk(cfg)
    ensures cfg.roster.root in cfg.roster.lanes && cfg.roster.lanes[cfg.roster.root] == Root
  {
    assert LaneRow(cfg.roster, cfg.roster.root, cfg.roster.lanes[cfg.roster.root]);
  }

  lemma NextSlots(cfg: Config, g: nat, ph: Phase, slots: map<Name, Slot>)
    requires ConfigOk(cfg) && SlotsOk(cfg, g, ph, slots) && forall id :: id in slots ==> !Open(slots[id])
    ensures SlotsOk(cfg, g + 1, Reasoning, slots) && !RoundDone(cfg, g + 1, Reasoning, slots)
  {
    forall id | id in slots ensures SlotRow(cfg, g + 1, Reasoning, id, slots[id]) {
      assert SlotRow(cfg, g, ph, id, slots[id]);
    }
    RootIsPaid(cfg);
    forall d | d in slots ensures !IsDone(slots[d], Root, g + 1, Reasoning) { assert SlotRow(cfg, g, ph, d, slots[d]); }
    assert !Done(slots, cfg.roster.lanes[cfg.roster.root], g + 1, Reasoning);
  }

  /** Giving a live review a final state leaves no live review. */
  lemma EndedReviews(cfg: Config, g: nat, ph: Phase, slots: map<Name, Slot>, evidence: map<Name, Evidence>,
                     reviews: map<ReviewId, Review>, r: ReviewId, state: ReviewState)
    requires ReviewsOk(cfg, g, slots, evidence, reviews) && PointerOk(g, ph, Some(r), reviews)
    requires
      || (reviews[r].state == Running && state == NotConfirmed)
      || (reviews[r].state == Confirmed && state == Resolved)
    ensures var now := reviews[r := reviews[r].(state := state)];
      && ReviewsOk(cfg, g + 1, slots, evidence, now) && PointerOk(g + 1, Reasoning, None, now)
      && ReviewsLater(reviews, now)
  {
    var now := reviews[r := reviews[r].(state := state)];
    forall q | q in now ensures ReviewRow(cfg, g + 1, slots, evidence, q, now[q]) {
      assert ReviewRow(cfg, g, slots, evidence, q, reviews[q]);
    }
    forall id | id in slots ensures BackLink(now, id, slots[id]) { assert BackLink(reviews, id, slots[id]); }
  }

  lemma NoReviews(cfg: Config, g: nat, ph: Phase, slots: map<Name, Slot>, evidence: map<Name, Evidence>,
                  reviews: map<ReviewId, Review>)
    requires ReviewsOk(cfg, g, slots, evidence, reviews) && PointerOk(g, ph, None, reviews)
    ensures ReviewsOk(cfg, g + 1, slots, evidence, reviews) && PointerOk(g + 1, Reasoning, None, reviews)
  {
    forall q | q in reviews ensures ReviewRow(cfg, g + 1, slots, evidence, q, reviews[q]) {
      assert ReviewRow(cfg, g, slots, evidence, q, reviews[q]);
    }
  }

  /** A review without a confirmation concerns no recommendation. */
  lemma RecommendationsSkip(ph: Phase, active: Option<ReviewId>, reviews: map<ReviewId, Review>,
                            recs: map<Name, Recommendation>, resolutions: map<Name, string>, r: ReviewId, v: Review,
                            ph2: Phase, active2: Option<ReviewId>)
    requires RecommendationsOk(ph, active, None, reviews, recs, resolutions) && r in reviews
    requires reviews[r].confirmation.None? && ph2 != OwnerAction
    ensures RecommendationsOk(ph2, active2, None, reviews[r := v], recs, resolutions)
    ensures forall i :: i in recs ==> recs[i].review != r
  {
    forall i | i in recs
      ensures RecommendationRow(None, reviews[r := v], resolutions, i, recs[i]) && recs[i].review != r
    {
      assert RecommendationRow(None, reviews, resolutions, i, recs[i]);
    }
  }

  /** Closing the live review, if there is one, leaves none. */
  lemma AbandonedReviews(cfg: Config, t: Db)
    requires Core(cfg, t) && Ready(cfg, t) && !(t.phase == Reasoning && t.activeReview.Some?)
    ensures ReviewsOk(cfg, t.generation + 1, t.slots, t.evidence, Abandoned(t))
    ensures PointerOk(t.generation + 1, Reasoning, None, Abandoned(t)) && ReviewsLater(t.reviews, Abandoned(t))
    ensures RecommendationsOk(Reasoning, None, None, Abandoned(t), t.recommendations, t.resolutions)
  {
    if t.phase == CriticReview {
      ReviewIsRunning(cfg, t.generation, t.slots, t.evidence, t.reviews, t.activeReview);
      var r := t.activeReview.value;
      EndedReviews(cfg, t.generation, t.phase, t.slots, t.evidence, t.reviews, r, NotConfirmed);
      RecommendationsSkip(t.phase, t.activeReview, t.reviews, t.recommendations, t.resolutions, r,
                          t.reviews[r].(state := NotConfirmed), Reasoning, None);
    } else {
      NoReviews(cfg, t.generation, t.phase, t.slots, t.evidence, t.reviews);
    }
  }

  lemma NextTasks(cfg: Config, g: nat, slots: map<Name, Slot>, tasks: map<TaskKey, Task>, next: map<TaskKey, Task>)
    requires forall id :: id in slots ==> Bound(tasks, slots[id])
    requires TasksLater(tasks, next) && forall k :: k in next ==> Paid(cfg, k.worker) && 1 <= k.generation <= g + 1
    ensures TasksOk(cfg, g + 1, Reasoning, slots, next)
  {
    forall id | id in slots ensures Bound(next, slots[id]) { assert Bound(tasks, slots[id]); }
  }

  lemma NextCandidates(g: nat, slots: map<Name, Slot>, cs: map<Receipt, Candidate>)
    requires CandidatesOk(g, slots, cs) && !Overlay(cs)
    ensures CandidatesOk(g + 1, slots, cs)
  {
    forall c | c in cs ensures CandidateRow(g + 1, slots, c, cs[c]) { assert CandidateRow(g, slots, c, cs[c]); }
  }

  lemma ReadyMeansDone(cfg: Config, t: Db)
    requires Core(cfg, t) && Ready(cfg, t)
    ensures forall id :: id in t.slots ==> !Open(t.slots[id])
    ensures WholeAndFrozen(cfg, t.generation, t.tasks)
  {
    forall id | id in t.slots ensures !Open(t.slots[id]) { NoneOpen(cfg, t.generation, t.phase, t.slots, id); }
    FinishedTasks(cfg, t.generation, t.phase, t.slots, t.tasks);
  }

  lemma NextRound(cfg: Config, t: Db)
    requires Core(cfg, t) && Ready(cfg, t)
    ensures SlotsOk(cfg, t.generation + 1, Reasoning, t.slots) && !RoundDone(cfg, t.generation + 1, Reasoning, t.slots)
  {
    ReadyMeansDone(cfg, t);
    NextSlots(cfg, t.generation, t.phase, t.slots);
  }

  lemma NextTaskSet(cfg: Config, t: Db, next: map<TaskKey, Task>)
    requires TasksOk(cfg, t.generation, t.phase, t.slots, t.tasks) && Carries(cfg, t.generation, t.tasks, next)
    ensures TasksOk(cfg, t.generation + 1, Reasoning, t.slots, next)
  {
    NextTasks(cfg, t.generation, t.slots, t.tasks, next);
  }

  /** Assembling the next generation's invariant from its parts. */
  lemma NextCore(cfg: Config, t: Db, tasks: map<TaskKey, Task>, reviews: map<ReviewId, Review>, now: real)
    requires ConfigOk(cfg) && t.recommendation.None? && EvidenceOk(t.slots, t.evidence)
    requires SlotsOk(cfg, t.generation + 1, Reasoning, t.slots) && !RoundDone(cfg, t.generation + 1, Reasoning, t.slots)
    requires TasksOk(cfg, t.generation + 1, Reasoning, t.slots, tasks)
    requires ReviewsOk(cfg, t.generation + 1, t.slots, t.evidence, reviews)
    requires PointerOk(t.generation + 1, Reasoning, None, reviews)
    requires RecommendationsOk(Reasoning, None, None, reviews, t.recommendations, t.resolutions)
    requires CandidatesOk(t.generation + 1, t.slots, t.candidates)
    ensures Inv(cfg, NextGeneration(cfg, t, tasks, reviews, now))
  {}

  lemma NextStep(cfg: Config, t: Db, tasks: map<TaskKey, Task>, reviews: map<ReviewId, Review>, now: real)
    requires t.phase != OwnerAction && !Overlay(t.candidates) && (forall id :: id in t.slots ==> !Open(t.slots[id]))
    requires Carries(cfg, t.generation, t.tasks, tasks) && ReviewsLater(t.reviews, reviews)
    ensures Step(cfg, t, NextGeneration(cfg, t, tasks, reviews, now))
  {
    LaterReflexive(t);
  }

  lemma AdvanceToNext(cfg: Config, t: Db, next: map<TaskKey, Task>, now: real)
    requires Core(cfg, t) && Ready(cfg, t) && !(t.phase == Reasoning && t.activeReview.Some?)
    requires Carries(cfg, t.generation, t.tasks, next)
    ensures Inv(cfg, NextGeneration(cfg, t, next, Abandoned(t), now))
  {
    NextRound(cfg, t);
    NextTaskSet(cfg, t, next);
    NextCandidates(t.generation, t.slots, t.candidates);
    AbandonedReviews(cfg, t);
    NextCore(cfg, t, next, Abandoned(t), now);
  }

  lemma AdvanceToNextStep(cfg: Config, t: Db, next: map<TaskKey, Task>, now: real)
    requires Core(cfg, t) && Ready(cfg, t) && !(t.phase == Reasoning && t.activeReview.Some?)
    requires Carries(cfg, t.generation, t.tasks, next)
    ensures Step(cfg, t, NextGeneration(cfg, t, next, Abandoned(t), now))
  {
    ReadyMeansDone(cfg, t);
    AbandonedReviews(cfg, t);
    NextStep(cfg, t, next, Abandoned(t), now);
  }

  /** The fail-closed checks of an advance all pass. */
  lemma ChecksPass(cfg: Config, t: Db)
    requires Core(cfg, t) && Ready(cfg, t)
    ensures t.recommendation.None? && WholeAndFrozen(cfg, t.generation, t.tasks)
    ensures t.activeReview.Some? ==>
      && t.activeReview.value in t.reviews && IsLive(t.reviews[t.activeReview.value])
      && t.activeReview.value.generation == t.generation
    ensures t.phase == Reasoning && t.activeReview.Some? ==> t.reviews[t.activeReview.value].state == Pending
    ensures t.phase == CriticReview ==>
      && t.activeReview.Some? && t.reviews[t.activeReview.value].state == Running
      && t.reviews[t.activeReview.value].confirmation.None?
  {
    ReadyMeansDone(cfg, t);
    if t.phase == CriticReview { ReviewIsRunning(cfg, t.generation, t.slots, t.evidence, t.reviews, t.activeReview); }
  }

  /** A worker whose slot of this round is terminal. */
  ghost predicate Served(t: Db, w: Name) {
    exists id :: id in t.slots && t.slots[id].worker == w && t.slots[id].generation == t.generation
                 && t.slots[id].phase == t.phase && t.slots[id].state == Terminal
  }

  /** A project moves on exactly when the owner is not asked, every candidate is closed, and every paid worker has been
      served, in a review the critic alone. */
  lemma ReadyMeansServed(cfg: Config, t: Db)
    requires Core(cfg, t)
    ensures Ready(cfg, t) <==>
      && t.phase != OwnerAction
      && (forall c :: c in t.candidates ==> t.candidates[c].state == Closed)
      && (forall w: Name :: Paid(cfg, w) && (t.phase == CriticReview ==> cfg.roster.critic == Some(w)) ==> Served(t, w))
  {
    forall c | c in t.candidates ensures IsOverlay(t.candidates[c]) <==> t.candidates[c].state != Closed {}
    forall w | Paid(cfg, w)
      ensures Served(t, w) <==> Done(t.slots, cfg.roster.lanes[w], t.generation, t.phase)
    {
      if Served(t, w) {
        var id :| id in t.slots && t.slots[id].worker == w && t.slots[id].generation == t.generation
                  && t.slots[id].phase == t.phase && t.slots[id].state == Terminal;
        assert SlotRow(cfg, t.generation, t.phase, id, t.slots[id]);
        assert IsDone(t.slots[id], cfg.roster.lanes[w], t.generation, t.phase);
      }
      if Done(t.slots, cfg.roster.lanes[w], t.generation, t.phase) {
        var id :| id in t.slots && IsDone(t.slots[id], cfg.roster.lanes[w], t.generation, t.phase);
        assert SlotRow(cfg, t.generation, t.phase, id, t.slots[id]);
        LaneIdentifiesWorker(cfg.roster, cfg.maxPaid, w, t.slots[id].worker);
      }
    }
    if t.phase == CriticReview {
      var r := t.activeReview.value;
      assert ReviewRow(cfg, t.generation, t.slots, t.evidence, r, t.reviews[r]);
      assert HasLane(cfg.roster, r.critic) && LaneRow(cfg.roster, r.critic, cfg.roster.lanes[r.critic]);
    }
  }

  /** An advance leaves a whole timeout for what it begins: the critic's review of a pending review, or the next
      generation; a project that is not ready does not move. */
  lemma AdvanceBegins(cfg: Config, t: Db, now: real)
    requires Core(cfg, t)
    ensures var b := Advanced(cfg, t, now);
      && (!Ready(cfg, t) ==> b == t)
      && (Ready(cfg, t) ==> b.deadline == now + cfg.timeout)
      && (Ready(cfg, t) && t.phase == Reasoning && t.activeReview.Some? ==>
           b.phase == CriticReview && b.generation == t.generation && b.activeReview == t.activeReview)
      && (Ready(cfg, t) && !(t.phase == Reasoning && t.activeReview.Some?) ==>
           b.phase == Reasoning && b.generation == t.generation + 1 && b.activeReview.None?
           && (t.phase == CriticReview ==>
                t.activeReview.Some? && t.activeReview.value in b.reviews
                && b.reviews[t.activeReview.value].state == NotConfirmed))
  {
    if Ready(cfg, t) && t.phase == CriticReview {
      ReviewIsRunning(cfg, t.generation, t.slots, t.evidence, t.reviews, t.activeReview);
    }
  }

  /** Advancing restores quiescence from any state in the middle of a transaction. */
  lemma AdvancedKeeps(cfg: Config, t: Db, now: real)
    requires Core(cfg, t)
    ensures Inv(cfg, Advanced(cfg, t, now)) && Step(cfg, t, Advanced(cfg, t, now))
  {
    if !Ready(cfg, t) {
      StepReflexive(cfg, t);
    } else if t.phase == Reasoning && t.activeReview.Some? {
      AdvanceToReview(cfg, t, now);
    } else {
      ReadyMeansDone(cfg, t);
      CarriedIs(cfg, t.generation, t.tasks);
      AdvanceToNext(cfg, t, Carried(cfg, t.generation, t.tasks), now);
      AdvanceToNextStep(cfg, t, Carried(cfg, t.generation, t.tasks), now);
    }
  }

  // ------------------------------------------------------------ one slot's row

  ghost function WithSlot(t: Db, id: Name, s: Slot): Db { t.(slots := t.slots[id := s]) }

  /** `_validate_slot_task_binding_locked`. */
  ghost predicate BindingOk(cfg: Config, t: Db, id: Name)
    requires id in t.slots
  {
    var s := t.slots[id];
    && Bound(t.tasks, s)
    && (s.prompt.None? ==> s.state != Active && s.state != Ambiguous)
    && (s.prompt.Some? ==> cfg.binds(id, s.generation, s.task, s.prompt.value))
  }

  /** The binding audit can only ever reject a slot marked ambiguous before its prompt was pinned. */
  lemma BindingRejectsWedged(cfg: Config, t: Db, id: Name)
    requires Core(cfg, t) && id in t.slots
    ensures BindingOk(cfg, t, id) <==> !Wedged(t.slots[id])
  {
    assert SlotRow(cfg, t.generation, t.phase, id, t.slots[id]) && Bound(t.tasks, t.slots[id]);
  }

  lemma WithSlotReviews(cfg: Config, g: nat, slots: map<Name, Slot>, evidence: map<Name, Evidence>,
                        reviews: map<ReviewId, Review>, id: Name, s: Slot)
    requires ReviewsOk(cfg, g, slots, evidence, reviews) && id in slots && SameIdentity(slots[id], s)
    ensures ReviewsOk(cfg, g, slots[id := s], evidence, reviews)
  {
    var later := slots[id := s];
    forall r | r in reviews ensures ReviewRow(cfg, g, later, evidence, r, reviews[r]) {
      assert ReviewRow(cfg, g, slots, evidence, r, reviews[r]);
    }
    forall i | i in later ensures BackLink(reviews, i, later[i]) { assert BackLink(reviews, i, slots[i]); }
  }

  lemma WithSlotRest(g: nat, slots: map<Name, Slot>, evidence: map<Name, Evidence>, cs: map<Receipt, Candidate>,
                     id: Name, s: Slot)
    requires EvidenceOk(slots, evidence) && CandidatesOk(g, slots, cs) && id in slots && SameIdentity(slots[id], s)
    ensures EvidenceOk(slots[id := s], evidence) && CandidatesOk(g, slots[id := s], cs)
  {
    var later := slots[id := s];
    forall e | e in evidence ensures EvidenceRow(later, evidence[e]) { assert EvidenceRow(slots, evidence[e]); }
    forall c | c in cs ensures CandidateRow(g, later, c, cs[c]) { assert CandidateRow(g, slots, c, cs[c]); }
  }

  lemma DoneAfter(slots: map<Name, Slot>, id: Name, s: Slot, lane: Lane, g: nat, ph: Phase)
    requires id in slots && Open(slots[id])
    ensures Done(slots, lane, g, ph) ==> Done(slots[id := s], lane, g, ph)
    ensures Open(s) && Done(slots[id := s], lane, g, ph) ==> Done(slots, lane, g, ph)
  {
    var later := slots[id := s];
    if Done(slots, lane, g, ph) {
      var d :| d in slots && IsDone(slots[d], lane, g, ph);
      assert d in later && IsDone(later[d], lane, g, ph);
    }
    if Open(s) && Done(later, lane, g, ph) {
      var d :| d in later && IsDone(later[d], lane, g, ph);
      assert d in slots && IsDone(slots[d], lane, g, ph);
    }
  }

  lemma RoundAfter(cfg: Config, g: nat, ph: Phase, slots: map<Name, Slot>, id: Name, s: Slot)
    requires id in slots && Open(slots[id])
    ensures RoundDone(cfg, g, ph, slots) ==> RoundDone(cfg, g, ph, slots[id := s])
    ensures Open(s) && RoundDone(cfg, g, ph, slots[id := s]) ==> RoundDone(cfg, g, ph, slots)
  {
    DoneAfter(slots, id, s, Critic, g, ph);
    forall w | w in cfg.roster.lanes
      ensures Done(slots, cfg.roster.lanes[w], g, ph) ==> Done(slots[id := s], cfg.roster.lanes[w], g, ph)
      ensures Open(s) && Done(slots[id := s], cfg.roster.lanes[w], g, ph) ==> Done(slots, cfg.roster.lanes[w], g, ph)
    {
      DoneAfter(slots, id, s, cfg.roster.lanes[w], g, ph);
    }
  }

  lemma WithSlotSlots(cfg: Config, g: nat, ph: Phase, slots: map<Name, Slot>, tasks: map<TaskKey, Task>, id: Name,
                      s: Slot)
    requires SlotsOk(cfg, g, ph, slots) && TasksOk(cfg, g, ph, slots, tasks)
    requires id in slots && Open(slots[id]) && SameIdentity(slots[id], s) && SlotRow(cfg, g, ph, id, s)
    ensures SlotsOk(cfg, g, ph, slots[id := s]) && TasksOk(cfg, g, ph, slots[id := s], tasks)
  {
    var later := slots[id := s];
    forall i | i in later ensures SlotRow(cfg, g, ph, i, later[i]) && Bound(tasks, later[i]) {
      assert SlotRow(cfg, g, ph, i, slots[i]) && Bound(tasks, slots[i]);
    }
    forall a, b | a in later && b in later && SameRound(later[a], later[b]) ensures a == b {
      assert SameRound(slots[a], slots[b]);
    }
    RoundAfter(cfg, g, Reasoning, slots, id, s);
  }

  /** Changing an open slot's state, prompt or outcome keeps the invariant; only closing it can end a round. */
  lemma WithSlotKeeps(cfg: Config, t: Db, id: Name, s: Slot)
    requires Core(cfg, t) && id in t.slots && Open(t.slots[id]) && SlotLater(t.slots[id], s)
    requires SlotRow(cfg, t.generation, t.phase, id, s)
    ensures Core(cfg, WithSlot(t, id, s)) && Step(cfg, t, WithSlot(t, id, s))
    ensures Open(s) && !Ready(cfg, t) ==> !Ready(cfg, WithSlot(t, id, s))
  {
    WithSlotReviews(cfg, t.generation, t.slots, t.evidence, t.reviews, id, s);
    WithSlotRest(t.generation, t.slots, t.evidence, t.candidates, id, s);
    WithSlotSlots(cfg, t.generation, t.phase, t.slots, t.tasks, id, s);
    RoundAfter(cfg, t.generation, t.phase, t.slots, id, s);
    WithSlotStep(cfg, t, id, s);
  }

  lemma WithSlotStep(cfg: Config, t: Db, id: Name, s: Slot)
    requires id in t.slots && SlotLater(t.slots[id], s)
    ensures Step(cfg, t, WithSlot(t, id, s))
  {
    LaterReflexive(t);
    assert t.slots[id := s].Keys == t.slots.Keys;
    StayStep(cfg, t, WithSlot(t, id, s));
  }

  // ------------------------------------------------- closing a slot, advancing

  ghost function ClosedSlot(s: Slot, outcome: string): Slot { s.(state := Terminal, outcome := Some(outcome)) }

  ghost function ClosedAndAdvanced(cfg: Config, t: Db, id: Name, outcome: string, now: real): Db
    requires id in t.slots
  {
    Advanced(cfg, WithSlot(t, id, ClosedSlot(t.slots[id], outcome)), now)
  }

  lemma ClosingRow(cfg: Config, t: Db, id: Name, outcome: string)
    requires Core(cfg, t) && id in t.slots && Open(t.slots[id]) && !Wedged(t.slots[id])
    ensures Core(cfg, WithSlot(t, id, ClosedSlot(t.slots[id], outcome)))
    ensures Step(cfg, t, WithSlot(t, id, ClosedSlot(t.slots[id], outcome)))
  {
    assert SlotRow(cfg, t.generation, t.phase, id, t.slots[id]);
    WithSlotKeeps(cfg, t, id, ClosedSlot(t.slots[id], outcome));
  }

  lemma ClosingKeeps(cfg: Config, t: Db, id: Name, outcome: string, now: real)
    requires Core(cfg, t) && id in t.slots && Open(t.slots[id]) && !Wedged(t.slots[id])
    ensures Core(cfg, WithSlot(t, id, ClosedSlot(t.slots[id], outcome)))
    ensures Inv(cfg, ClosedAndAdvanced(cfg, t, id, outcome, now))
    ensures Step(cfg, t, ClosedAndAdvanced(cfg, t, id, outcome, now))
  {
    var m := WithSlot(t, id, ClosedSlot(t.slots[id], outcome));
    ClosingRow(cfg, t, id, outcome);
    AdvancedKeeps(cfg, m, now);
    assert m.slots.Keys == t.slots.Keys;
    StepAfterSlot(cfg, t, m, Advanced(cfg, m, now));
  }

  /** A change of slot rows followed by a step is one step. */
  lemma StepAfterSlot(cfg: Config, a: Db, m: Db, b: Db)
    requires Step(cfg, a, m) && Step(cfg, m, b) && m == a.(slots := m.slots) && m.slots.Keys == a.slots.Keys
    ensures Step(cfg, a, b)
  {
    LaterTransitive(a, m, b);
    if b.generation > a.generation && a.phase != OwnerAction { assert CarriedForward(cfg, m, b); }
    if a.phase == OwnerAction && b.phase != OwnerAction { assert FrozenWhole(cfg, m, b); }
  }

  // ----------------------------------------------------------------- admission

  ghost function FreshSlot(cfg: Config, t: Db, w: Name, task: string): Slot {
    var review := if t.phase == CriticReview then t.activeReview else None;
    Slot(w, LaneOf(cfg.roster, w), t.generation, t.phase, Prepared, task, None, None,
         review, if review.Some? then Some(review.value.entry) else None)
  }

  ghost function Admitted(cfg: Config, t: Db, w: Name, id: Name): Db
    requires TaskKey(w, t.generation) in t.tasks
  {
    var k := TaskKey(w, t.generation);
    t.(slots := t.slots[id := FreshSlot(cfg, t, w, t.tasks[k].text)],
       tasks := t.tasks[k := Task(t.tasks[k].text, true)],
       reviews :=
         if t.phase == CriticReview && t.activeReview.Some?
         then t.reviews[t.activeReview.value := Review(Running, Some(id), None)]
         else t.reviews)
  }

  ghost predicate HasRound(slots: map<Name, Slot>, w: Name, g: nat, ph: Phase) {
    exists id :: id in slots && slots[id].worker == w && slots[id].generation == g && slots[id].phase == ph
  }

  /** In time, on a project no candidate freezes, and eligible in a phase it has not been served in. */
  ghost predicate MayServe(cfg: Config, t: Db, w: Name, now: real) {
    && now < t.deadline && !Overlay(t.candidates)
    && (if t.phase == Reasoning then Paid(cfg, w) else t.phase == CriticReview && LaneOf(cfg.roster, w) == Critic)
    && !HasRound(t.slots, w, t.generation, t.phase)
  }

  /** Exactly when a fresh slot is handed out. */
  ghost predicate CanAdmit(cfg: Config, t: Db, w: Name, id: Name, now: real) {
    MayServe(cfg, t, w, now) && TaskKey(w, t.generation) in t.tasks && id !in t.slots
  }

  /** Before the critic's slot exists its review is pending. */
  lemma ReviewIsPending(cfg: Config, g: nat, slots: map<Name, Slot>, evidence: map<Name, Evidence>,
                        reviews: map<ReviewId, Review>, active: Option<ReviewId>, w: Name)
    requires ConfigOk(cfg) && ReviewsOk(cfg, g, slots, evidence, reviews) && PointerOk(g, CriticReview, active, reviews)
    requires LaneOf(cfg.roster, w) == Critic && !HasRound(slots, w, g, CriticReview)
    ensures active.Some? && active.value in reviews && reviews[active.value] == Review(Pending, None, None)
    ensures active.value.critic == w && active.value.generation == g
  {
    var r := active.value;
    assert ReviewRow(cfg, g, slots, evidence, r, reviews[r]);
    LaneIdentifiesWorker(cfg.roster, cfg.maxPaid, w, w);
  }

  lemma SameDone(slots: map<Name, Slot>, id: Name, s: Slot, lane: Lane, g: nat, ph: Phase)
    requires id !in slots && Open(s)
    ensures Done(slots, lane, g, ph) <==> Done(slots[id := s], lane, g, ph)
  {
    var later := slots[id := s];
    if Done(slots, lane, g, ph) {
      var d :| d in slots && IsDone(slots[d], lane, g, ph);
      assert d in later && IsDone(later[d], lane, g, ph);
    }
    if Done(later, lane, g, ph) {
      var d :| d in later && IsDone(later[d], lane, g, ph);
      assert d in slots && IsDone(slots[d], lane, g, ph);
    }
  }

  lemma SameRounds(cfg: Config, g: nat, ph: Phase, slots: map<Name, Slot>, id: Name, s: Slot)
    requires id !in slots && Open(s)
    ensures RoundDone(cfg, g, ph, slots) <==> RoundDone(cfg, g, ph, slots[id := s])
  {
    SameDone(slots, id, s, Critic, g, ph);
    forall w | w in cfg.roster.lanes
      ensures Done(slots, cfg.roster.lanes[w], g, ph) <==> Done(slots[id := s], cfg.roster.lanes[w], g, ph)
    {
      SameDone(slots, id, s, cfg.roster.lanes[w], g, ph);
    }
  }

  lemma OpenedSlots(cfg: Config, g: nat, ph: Phase, slots: map<Name, Slot>, id: Name, s: Slot)
    requires SlotsOk(cfg, g, ph, slots) && id !in slots && Open(s) && SlotRow(cfg, g, ph, id, s)
    requires !HasRound(slots, s.worker, s.generation, s.phase)
    ensures SlotsOk(cfg, g, ph, slots[id := s])
    ensures RoundDone(cfg, g, ph, slots) <==> RoundDone(cfg, g, ph, slots[id := s])
  {
    var later := slots[id := s];
    forall i | i in later ensures SlotRow(cfg, g, ph, i, later[i]) {
      if i != id { assert SlotRow(cfg, g, ph, i, slots[i]); }
    }
    forall a, b | a in later && b in later && SameRound(later[a], later[b]) ensures a == b {
      if a != id && b != id { assert SameRound(slots[a], slots[b]); }
    }
    SameRounds(cfg, g, Reasoning, slots, id, s);
    SameRounds(cfg, g, ph, slots, id, s);
  }

  lemma OpenedRest(cfg: Config, g: nat, ph: Phase, slots: map<Name, Slot>, tasks: map<TaskKey, Task>,
                   evidence: map<Name, Evidence>,
                   cs: map<Receipt, Candidate>, id: Name, s: Slot, k: TaskKey)
    requires TasksOk(cfg, g, ph, slots, tasks) && EvidenceOk(slots, evidence) && CandidatesOk(g, slots, cs)
    requires id !in slots
    requires k == TaskKey(s.worker, s.generation) && k in tasks && s.task == tasks[k].text
    ensures TasksOk(cfg, g, ph, slots[id := s], tasks[k := Task(s.task, true)])
    ensures TasksLater(tasks, tasks[k := Task(s.task, true)])
    ensures EvidenceOk(slots[id := s], evidence) && CandidatesOk(g, slots[id := s], cs)
  {
    var later, now := slots[id := s], tasks[k := Task(s.task, true)];
    forall i | i in later ensures Bound(now, later[i]) { if i != id { assert Bound(tasks, slots[i]); } }
    forall e | e in evidence ensures EvidenceRow(later, evidence[e]) { assert EvidenceRow(slots, evidence[e]); }
    forall c | c in cs ensures CandidateRow(g, later, c, cs[c]) { assert CandidateRow(g, slots, c, cs[c]); }
  }

  lemma OpenedPlain(cfg: Config, g: nat, slots: map<Name, Slot>, evidence: map<Name, Evidence>,
                    reviews: map<ReviewId, Review>, id: Name, s: Slot)
    requires ReviewsOk(cfg, g, slots, evidence, reviews) && id !in slots && s.review.None?
    ensures ReviewsOk(cfg, g, slots[id := s], evidence, reviews)
  {
    var later := slots[id := s];
    forall r | r in reviews ensures ReviewRow(cfg, g, later, evidence, r, reviews[r]) {
      assert ReviewRow(cfg, g, slots, evidence, r, reviews[r]);
    }
    forall i | i in later ensures BackLink(reviews, i, later[i]) {
      if i != id { assert BackLink(reviews, i, slots[i]); }
    }
  }

  /** Opening the critic's slot starts its review. */
  lemma OpenedReview(cfg: Config, g: nat, slots: map<Name, Slot>, evidence: map<Name, Evidence>,
                     reviews: map<ReviewId, Review>,
                     r: ReviewId, id: Name, s: Slot)
    requires ReviewsOk(cfg, g, slots, evidence, reviews) && PointerOk(g, CriticReview, Some(r), reviews)
    requires reviews[r] == Review(Pending, None, None) && id !in slots
    requires CriticSide(map[id := s], r, id)
    ensures var now := reviews[r := Review(Running, Some(id), None)];
      && ReviewsOk(cfg, g, slots[id := s], evidence, now) && PointerOk(g, CriticReview, Some(r), now)
      && ReviewsLater(reviews, now)
  {
    var later, now := slots[id := s], reviews[r := Review(Running, Some(id), None)];
    forall q | q in now ensures ReviewRow(cfg, g, later, evidence, q, now[q]) {
      assert ReviewRow(cfg, g, slots, evidence, q, reviews[q]);
    }
    forall i | i in later ensures BackLink(now, i, later[i]) { if i != id { assert BackLink(reviews, i, slots[i]); } }
  }

  lemma AdmittedSlot(cfg: Config, t: Db, w: Name, id: Name, now: real)
    requires Inv(cfg, t) && CanAdmit(cfg, t, w, id, now)
    ensures SlotRow(cfg, t.generation, t.phase, id, FreshSlot(cfg, t, w, t.tasks[TaskKey(w, t.generation)].text))
    ensures SlotsOk(cfg, t.generation, t.phase, Admitted(cfg, t, w, id).slots)
    ensures !RoundDone(cfg, t.generation, t.phase, Admitted(cfg, t, w, id).slots)
  {
    LaneIdentifiesWorker(cfg.roster, cfg.maxPaid, w, w);
    if t.phase == CriticReview {
      ReviewIsPending(cfg, t.generation, t.slots, t.evidence, t.reviews, t.activeReview, w);
    }
    OpenedSlots(cfg, t.generation, t.phase, t.slots, id, FreshSlot(cfg, t, w, t.tasks[TaskKey(w, t.generation)].text));
  }

  lemma AdmittedReviews(cfg: Config, t: Db, w: Name, id: Name, now: real)
    requires Inv(cfg, t) && CanAdmit(cfg, t, w, id, now)
    ensures var b := Admitted(cfg, t, w, id);
      && ReviewsOk(cfg, b.generation, b.slots, b.evidence, b.reviews)
      && PointerOk(b.generation, b.phase, b.activeReview, b.reviews)
      && ReviewsLater(t.reviews, b.reviews)
      && RecommendationsOk(b.phase, b.activeReview, b.recommendation, b.reviews, b.recommendations, b.resolutions)
  {
    var s := FreshSlot(cfg, t, w, t.tasks[TaskKey(w, t.generation)].text);
    if t.phase == CriticReview {
      ReviewIsPending(cfg, t.generation, t.slots, t.evidence, t.reviews, t.activeReview, w);
      var r := t.activeReview.value;
      OpenedReview(cfg, t.generation, t.slots, t.evidence, t.reviews, r, id, s);
      RecommendationsSkip(t.phase, t.activeReview, t.reviews, t.recommendations, t.resolutions, r,
                          Review(Running, Some(id), None), t.phase, t.activeReview);
    } else {
      OpenedPlain(cfg, t.generation, t.slots, t.evidence, t.reviews, id, s);
    }
  }

  lemma AdmittedKeeps(cfg: Config, t: Db, w: Name, id: Name, now: real)
    requires Inv(cfg, t) && CanAdmit(cfg, t, w, id, now)
    ensures Inv(cfg, Admitted(cfg, t, w, id)) && Step(cfg, t, Admitted(cfg, t, w, id))
  {
    var k := TaskKey(w, t.generation);
    AdmittedSlot(cfg, t, w, id, now);
    AdmittedReviews(cfg, t, w, id, now);
    OpenedRest(cfg, t.generation, t.phase, t.slots, t.tasks, t.evidence, t.candidates, id,
               FreshSlot(cfg, t, w, t.tasks[k].text), k);
    LaterReflexive(t);
    StayStep(cfg, t, Admitted(cfg, t, w, id));
  }

  // ------------------------------------------------------------------- staging

  ghost function Staged(t: Db, k: TaskKey, text: string): Db { t.(tasks := t.tasks[k := Task(text, false)]) }

  lemma StagedTasks(cfg: Config, g: nat, ph: Phase, slots: map<Name, Slot>, tasks: map<TaskKey, Task>, k: TaskKey,
                    text: string)
    requires TasksOk(cfg, g, ph, slots, tasks) && Paid(cfg, k.worker) && 1 <= k.generation == Horizon(g, ph)
    requires k in tasks ==> !tasks[k].frozen
    ensures TasksOk(cfg, g, ph, slots, tasks[k := Task(text, false)])
  {
    forall id | id in slots ensures Bound(tasks[k := Task(text, false)], slots[id]) { assert Bound(tasks, slots[id]); }
  }

  lemma StagedKeeps(cfg: Config, t: Db, k: TaskKey, text: string)
    requires Inv(cfg, t) && Paid(cfg, k.worker) && k.generation == Horizon(t.generation, t.phase)
    requires !Overlay(t.candidates)
    requires k in t.tasks ==> !t.tasks[k].frozen
    ensures Inv(cfg, Staged(t, k, text)) && Step(cfg, t, Staged(t, k, text))
  {
    StagedTasks(cfg, t.generation, t.phase, t.slots, t.tasks, k, text);
    LaterReflexive(t);
    StayStep(cfg, t, Staged(t, k, text));
  }

  // ------------------------------------------------------ evidence and reviews

  ghost function WithEvidence(t: Db, entry: Name, e: Evidence): Db { t.(evidence := t.evidence[entry := e]) }

  lemma MoreEvidence(cfg: Config, g: nat, slots: map<Name, Slot>, evidence: map<Name, Evidence>,
                     more: map<Name, Evidence>, reviews: map<ReviewId, Review>)
    requires ReviewsOk(cfg, g, slots, evidence, reviews) && Extends(evidence, more)
    ensures ReviewsOk(cfg, g, slots, more, reviews)
  {
    forall r | r in reviews ensures ReviewRow(cfg, g, slots, more, r, reviews[r]) {
      assert ReviewRow(cfg, g, slots, evidence, r, reviews[r]);
    }
  }

  lemma EvidenceKeeps(cfg: Config, t: Db, entry: Name, e: Evidence)
    requires Inv(cfg, t) && EvidenceRow(t.slots, e) && (entry in t.evidence ==> t.evidence[entry] == e)
    ensures Inv(cfg, WithEvidence(t, entry, e)) && Step(cfg, t, WithEvidence(t, entry, e))
  {
    MoreEvidence(cfg, t.generation, t.slots, t.evidence, t.evidence[entry := e], t.reviews);
    LaterReflexive(t);
    StayStep(cfg, t, WithEvidence(t, entry, e));
  }

  ghost function WithReview(t: Db, r: ReviewId): Db {
    t.(reviews := t.reviews[r := Review(Pending, None, None)], activeReview := Some(r))
  }

  lemma NewReview(cfg: Config, g: nat, ph: Phase, slots: map<Name, Slot>, evidence: map<Name, Evidence>,
                  reviews: map<ReviewId, Review>, r: ReviewId)
    requires ReviewsOk(cfg, g, slots, evidence, reviews) && PointerOk(g, ph, None, reviews)
    requires r.generation == g && cfg.roster.critic == Some(r.critic)
    requires RootSide(cfg, slots, evidence, r) && forall q :: q in reviews ==> q.slot != r.slot
    ensures var now := reviews[r := Review(Pending, None, None)];
      ReviewsOk(cfg, g, slots, evidence, now) && PointerOk(g, ph, Some(r), now) && ReviewsLater(reviews, now)
  {
    var now := reviews[r := Review(Pending, None, None)];
    assert r !in reviews;
    forall q | q in now ensures ReviewRow(cfg, g, slots, evidence, q, now[q]) {
      if q != r { assert ReviewRow(cfg, g, slots, evidence, q, reviews[q]); }
    }
    forall id | id in slots ensures BackLink(now, id, slots[id]) { assert BackLink(reviews, id, slots[id]); }
  }

  lemma RecommendationsKeep(ph: Phase, active: Option<ReviewId>, reviews: map<ReviewId, Review>,
                            recs: map<Name, Recommendation>, resolutions: map<Name, string>, r: ReviewId, v: Review)
    requires RecommendationsOk(ph, active, None, reviews, recs, resolutions) && r !in reviews
    ensures RecommendationsOk(ph, Some(r), None, reviews[r := v], recs, resolutions)
  {
    forall i | i in recs ensures RecommendationRow(None, reviews[r := v], resolutions, i, recs[i]) {
      assert RecommendationRow(None, reviews, resolutions, i, recs[i]);
    }
  }

  lemma ReviewKeeps(cfg: Config, t: Db, r: ReviewId)
    requires Inv(cfg, t) && t.activeReview.None? && r.generation == t.generation && cfg.roster.critic == Some(r.critic)
    requires RootSide(cfg, t.slots, t.evidence, r) && forall q :: q in t.reviews ==> q.slot != r.slot
    ensures Inv(cfg, WithReview(t, r)) && Step(cfg, t, WithReview(t, r))
  {
    NewReview(cfg, t.generation, t.phase, t.slots, t.evidence, t.reviews, r);
    RecommendationsKeep(t.phase, None, t.reviews, t.recommendations, t.resolutions, r, Review(Pending, None, None));
    LaterReflexive(t);
    StayStep(cfg, t, WithReview(t, r));
  }

  /** The critic's confirmation opens the owner gate. */
  ghost function WithConfirmation(t: Db, r: ReviewId, entry: Name, rec: Name): Db
    requires r in t.reviews
  {
    t.(reviews := t.reviews[r := t.reviews[r].(state := Confirmed, confirmation := Some(entry))],
       recommendations := t.recommendations[rec := Recommendation(t.generation, r, r.entry, entry)],
       recommendation := Some(rec), phase := OwnerAction)
  }

  lemma ConfirmedReview(cfg: Config, g: nat, slots: map<Name, Slot>, evidence: map<Name, Evidence>,
                        reviews: map<ReviewId, Review>, r: ReviewId, entry: Name)
    requires ReviewsOk(cfg, g, slots, evidence, reviews) && PointerOk(g, CriticReview, Some(r), reviews)
    requires reviews[r].state == Running && reviews[r].criticSlot.Some?
    requires ConfirmedBy(evidence, r, reviews[r].criticSlot.value, entry)
    ensures reviews[r].confirmation.None?
    ensures var now := reviews[r := reviews[r].(state := Confirmed, confirmation := Some(entry))];
      ReviewsOk(cfg, g, slots, evidence, now) && PointerOk(g, OwnerAction, Some(r), now) && ReviewsLater(reviews, now)
  {
    var now := reviews[r := reviews[r].(state := Confirmed, confirmation := Some(entry))];
    assert ReviewRow(cfg, g, slots, evidence, r, reviews[r]);
    forall q | q in now ensures ReviewRow(cfg, g, slots, evidence, q, now[q]) {
      assert ReviewRow(cfg, g, slots, evidence, q, reviews[q]);
    }
    forall id | id in slots ensures BackLink(now, id, slots[id]) { assert BackLink(reviews, id, slots[id]); }
  }

  lemma NewRecommendation(ph: Phase, reviews: map<ReviewId, Review>, recs: map<Name, Recommendation>,
                          resolutions: map<Name, string>,
                          r: ReviewId, v: Review, entry: Name, i: Name)
    requires RecommendationsOk(ph, Some(r), None, reviews, recs, resolutions) && r in reviews
    requires reviews[r].confirmation.None?
    requires i !in recs && v.state == Confirmed && v.confirmation == Some(entry)
    ensures RecommendationsOk(OwnerAction, Some(r), Some(i), reviews[r := v],
                              recs[i := Recommendation(r.generation, r, r.entry, entry)], resolutions)
  {
    var now, more := reviews[r := v], recs[i := Recommendation(r.generation, r, r.entry, entry)];
    RecommendationsSkip(ph, Some(r), reviews, recs, resolutions, r, v, ph, Some(r));
    forall j | j in more ensures RecommendationRow(Some(i), now, resolutions, j, more[j]) {
      if j != i { assert RecommendationRow(None, now, resolutions, j, recs[j]); }
    }
  }

  lemma OwnerSlots(cfg: Config, g: nat, slots: map<Name, Slot>, tasks: map<TaskKey, Task>)
    requires SlotsOk(cfg, g, CriticReview, slots) && TasksOk(cfg, g, CriticReview, slots, tasks)
    ensures SlotsOk(cfg, g, OwnerAction, slots) && TasksOk(cfg, g, OwnerAction, slots, tasks)
  {
    forall id | id in slots ensures SlotRow(cfg, g, OwnerAction, id, slots[id]) {
      assert SlotRow(cfg, g, CriticReview, id, slots[id]);
    }
  }

  ghost predicate CanConfirm(t: Db, r: ReviewId, entry: Name, rec: Name) {
    && t.phase == CriticReview && t.activeReview == Some(r) && rec !in t.recommendations && r in t.reviews
    && t.reviews[r].state == Running && t.reviews[r].criticSlot.Some?
    && ConfirmedBy(t.evidence, r, t.reviews[r].criticSlot.value, entry)
  }

  lemma ConfirmationKeeps(cfg: Config, t: Db, r: ReviewId, entry: Name, rec: Name)
    requires Inv(cfg, t) && CanConfirm(t, r, entry, rec)
    ensures Inv(cfg, WithConfirmation(t, r, entry, rec)) && Step(cfg, t, WithConfirmation(t, r, entry, rec))
  {
    ConfirmedReview(cfg, t.generation, t.slots, t.evidence, t.reviews, r, entry);
    NewRecommendation(t.phase, t.reviews, t.recommendations, t.resolutions, r,
                      t.reviews[r].(state := Confirmed, confirmation := Some(entry)), entry, rec);
    OwnerSlots(cfg, t.generation, t.slots, t.tasks);
    LaterReflexive(t);
  }

  /** New evidence followed by a step is one step. */
  lemma StepAfterEvidence(cfg: Config, a: Db, m: Db, b: Db)
    requires Step(cfg, a, m) && Step(cfg, m, b) && m == a.(evidence := m.evidence)
    ensures Step(cfg, a, b)
  {
    LaterTransitive(a, m, b);
    if b.generation > a.generation && a.phase != OwnerAction { assert CarriedForward(cfg, m, b); }
    if a.phase == OwnerAction && b.phase != OwnerAction { assert FrozenWhole(cfg, m, b); }
  }

  lemma PointerIsLive(g: nat, ph: Phase, active: Option<ReviewId>, reviews: map<ReviewId, Review>)
    requires PointerOk(g, ph, active, reviews)
    ensures active.Some? ==> active.value in reviews && IsLive(reviews[active.value])
  {}

  lemma RootRow(cfg: Config, t: Db, r: ReviewId, e: Evidence)
    requires Core(cfg, t) && r.slot in t.slots && EvidenceRow(t.slots, e) && e.slot == r.slot && e.lane == Root
    requires r.generation == e.generation
    ensures RootSide(cfg, t.slots, t.evidence[r.entry := e], r)
  {
    assert SlotRow(cfg, t.generation, t.phase, r.slot, t.slots[r.slot]);
    LaneIdentifiesWorker(cfg.roster, cfg.maxPaid, t.slots[r.slot].worker, cfg.roster.root);
  }

  /** Recording root evidence and designating its review, as one transaction. */
  lemma EvidenceAndReview(cfg: Config, t: Db, entry: Name, e: Evidence, r: ReviewId)
    requires Inv(cfg, t) && EvidenceRow(t.slots, e) && (entry in t.evidence ==> t.evidence[entry] == e)
    requires e.lane == Root
    requires t.activeReview.None? && cfg.roster.critic.Some?
    requires r == ReviewId(t.generation, entry, e.slot, cfg.roster.critic.value)
    requires e.generation == t.generation && forall q :: q in t.reviews ==> q.slot != r.slot
    ensures Inv(cfg, WithReview(WithEvidence(t, entry, e), r)) && Step(cfg, t, WithReview(WithEvidence(t, entry, e), r))
  {
    var m := WithEvidence(t, entry, e);
    EvidenceKeeps(cfg, t, entry, e);
    RootRow(cfg, t, r, e);
    ReviewKeeps(cfg, m, r);
    StepAfterEvidence(cfg, t, m, WithReview(m, r));
  }

  /** Recording the critic's confirmation and opening the owner gate, as one transaction. */
  lemma EvidenceAndConfirmation(cfg: Config, t: Db, entry: Name, e: Evidence, r: ReviewId, rec: Name)
    requires Inv(cfg, t) && EvidenceRow(t.slots, e) && (entry in t.evidence ==> t.evidence[entry] == e)
    requires CanConfirm(WithEvidence(t, entry, e), r, entry, rec)
    ensures Inv(cfg, WithConfirmation(WithEvidence(t, entry, e), r, entry, rec))
    ensures Step(cfg, t, WithConfirmation(WithEvidence(t, entry, e), r, entry, rec))
  {
    var m := WithEvidence(t, entry, e);
    EvidenceKeeps(cfg, t, entry, e);
    ConfirmationKeeps(cfg, m, r, entry, rec);
    StepAfterEvidence(cfg, t, m, WithConfirmation(m, r, entry, rec));
  }

  // ---------------------------------------------------------- owner resolution

  ghost function Answered(t: Db, i: Name, detail: string): Db {
    t.(recommendation := None, resolutions := t.resolutions[i := detail])
  }

  ghost function WithResolution(cfg: Config, t: Db, i: Name, detail: string, tasks: map<TaskKey, Task>, now: real): Db
    requires i in t.recommendations && t.recommendations[i].review in t.reviews
  {
    NextGeneration(cfg, Answered(t, i, detail), tasks, Settled(t, i), now)
  }

  ghost predicate FullyStaged(cfg: Config, tasks: map<TaskKey, Task>, g: nat) {
    forall w :: w in cfg.roster.lanes ==> TaskKey(w, g) in tasks
  }

  lemma ResolvedRecommendation(active: Option<ReviewId>, reviews: map<ReviewId, Review>,
                               recs: map<Name, Recommendation>, resolutions: map<Name, string>, i: Name, detail: string)
    requires RecommendationsOk(OwnerAction, active, Some(i), reviews, recs, resolutions)
    ensures i in recs && recs[i].review in reviews && active == Some(recs[i].review) && i !in resolutions
    ensures reviews[recs[i].review].state == Confirmed
    ensures var r := recs[i].review;
      RecommendationsOk(Reasoning, None, None, reviews[r := reviews[r].(state := Resolved)], recs,
                        resolutions[i := detail])
  {
    assert RecommendationRow(Some(i), reviews, resolutions, i, recs[i]);
    var r := recs[i].review;
    var now, done := reviews[r := reviews[r].(state := Resolved)], resolutions[i := detail];
    forall j | j in recs ensures RecommendationRow(None, now, done, j, recs[j]) {
      assert RecommendationRow(Some(i), reviews, resolutions, j, recs[j]);
    }
  }

  ghost predicate CanResolve(cfg: Config, t: Db, i: Name) {
    && t.recommendation == Some(i) && !Overlay(t.candidates) && FullyStaged(cfg, t.tasks, t.generation + 1)
    && forall id :: id in t.slots ==> !Open(t.slots[id])
  }

  /** `next` is `tasks` with generation `g` frozen. */
  ghost predicate Freezes(g: nat, tasks: map<TaskKey, Task>, next: map<TaskKey, Task>) {
    && (forall k :: k in next <==> k in tasks)
    && (forall k :: k in tasks ==> next[k] == Task(tasks[k].text, tasks[k].frozen || k.generation == g))
  }

  lemma ResolvedTasks(cfg: Config, g: nat, slots: map<Name, Slot>, tasks: map<TaskKey, Task>, next: map<TaskKey, Task>)
    requires TasksOk(cfg, g, OwnerAction, slots, tasks) && Freezes(g + 1, tasks, next)
    ensures TasksOk(cfg, g + 1, Reasoning, slots, next) && TasksLater(tasks, next)
  {
    NextTasks(cfg, g, slots, tasks, next);
  }

  /** The review of recommendation `i`, resolved. */
  ghost function Settled(t: Db, i: Name): map<ReviewId, Review>
    requires i in t.recommendations && t.recommendations[i].review in t.reviews
  {
    t.reviews[t.recommendations[i].review := t.reviews[t.recommendations[i].review].(state := Resolved)]
  }

  lemma ResolutionReviews(cfg: Config, t: Db, i: Name, detail: string)
    requires Core(cfg, t) && t.recommendation == Some(i)
    ensures i in t.recommendations && t.recommendations[i].review in t.reviews && i !in t.resolutions
    ensures ReviewsOk(cfg, t.generation + 1, t.slots, t.evidence, Settled(t, i))
    ensures PointerOk(t.generation + 1, Reasoning, None, Settled(t, i))
    ensures RecommendationsOk(Reasoning, None, None, Settled(t, i), t.recommendations, t.resolutions[i := detail])
    ensures ReviewsLater(t.reviews, Settled(t, i))
  {
    ResolvedRecommendation(t.activeReview, t.reviews, t.recommendations, t.resolutions, i, detail);
    EndedReviews(cfg, t.generation, t.phase, t.slots, t.evidence, t.reviews, t.recommendations[i].review, Resolved);
  }

  lemma ResolutionRound(cfg: Config, g: nat, slots: map<Name, Slot>, tasks: map<TaskKey, Task>,
                        next: map<TaskKey, Task>, cs: map<Receipt, Candidate>)
    requires ConfigOk(cfg) && SlotsOk(cfg, g, OwnerAction, slots) && TasksOk(cfg, g, OwnerAction, slots, tasks)
    requires CandidatesOk(g, slots, cs)
    requires !Overlay(cs) && Freezes(g + 1, tasks, next) && forall id :: id in slots ==> !Open(slots[id])
    ensures SlotsOk(cfg, g + 1, Reasoning, slots) && !RoundDone(cfg, g + 1, Reasoning, slots)
    ensures CandidatesOk(g + 1, slots, cs) && TasksOk(cfg, g + 1, Reasoning, slots, next)
  {
    NextSlots(cfg, g, OwnerAction, slots);
    NextCandidates(g, slots, cs);
    ResolvedTasks(cfg, g, slots, tasks, next);
  }

  lemma OwnerStep(cfg: Config, t: Db, i: Name, detail: string, next: map<TaskKey, Task>,
                  reviews: map<ReviewId, Review>, now: real)
    requires t.phase == OwnerAction && t.recommendation == Some(i) && i !in t.resolutions && CanResolve(cfg, t, i)
    requires Freezes(t.generation + 1, t.tasks, next) && ReviewsLater(t.reviews, reviews)
    ensures Step(cfg, t, NextGeneration(cfg, Answered(t, i, detail), next, reviews, now))
  {
    LaterReflexive(t);
  }

  lemma ResolutionKeeps(cfg: Config, t: Db, i: Name, detail: string, next: map<TaskKey, Task>, now: real)
    requires Core(cfg, t) && t.recommendation == Some(i) && !Overlay(t.candidates)
    requires Freezes(t.generation + 1, t.tasks, next)
    requires forall id :: id in t.slots ==> !Open(t.slots[id])
    ensures i in t.recommendations && t.recommendations[i].review in t.reviews
    ensures Inv(cfg, WithResolution(cfg, t, i, detail, next, now))
  {
    ResolutionReviews(cfg, t, i, detail);
    ResolutionRound(cfg, t.generation, t.slots, t.tasks, next, t.candidates);
    NextCore(cfg, Answered(t, i, detail), next, Settled(t, i), now);
  }

  lemma ResolutionIsStep(cfg: Config, t: Db, i: Name, detail: string, next: map<TaskKey, Task>, now: real)
    requires Core(cfg, t) && CanResolve(cfg, t, i) && Freezes(t.generation + 1, t.tasks, next)
    ensures i in t.recommendations && t.recommendations[i].review in t.reviews
    ensures Step(cfg, t, WithResolution(cfg, t, i, detail, next, now))
  {
    ResolutionReviews(cfg, t, i, detail);
    OwnerStep(cfg, t, i, detail, next, Settled(t, i), now);
  }

  // ---------------------------------------------------------------- candidates

  ghost function WithCandidate(t: Db, c: Receipt, v: Candidate): Db { t.(candidates := t.candidates[c := v]) }

  /** Recording a candidate, or moving one on, keeps everything but perhaps quiescence. */
  lemma CandidateKeeps(cfg: Config, t: Db, c: Receipt, v: Candidate)
    requires Core(cfg, t) && CandidateRow(t.generation, t.slots, c, v)
    requires c in t.candidates ==> t.candidates[c].state != Closed
    requires IsOverlay(v) ==> forall d :: d in t.candidates && d != c ==> !IsOverlay(t.candidates[d])
    ensures Core(cfg, WithCandidate(t, c, v)) && Step(cfg, t, WithCandidate(t, c, v))
    ensures !Ready(cfg, t) && (IsOverlay(v) || c !in t.candidates) ==> !Ready(cfg, WithCandidate(t, c, v))
  {
    var b := WithCandidate(t, c, v);
    assert b.candidates[c] == v;
    if c !in t.candidates && Overlay(t.candidates) {
      var d :| d in t.candidates && IsOverlay(t.candidates[d]);
      assert d in b.candidates && IsOverlay(b.candidates[d]);
    }
    LaterReflexive(t);
    StayStep(cfg, t, b);
  }

  lemma StepAfterRelease(cfg: Config, a: Db, m: Db, b: Db)
    requires Step(cfg, a, m) && Step(cfg, m, b) && m == a.(candidates := m.candidates) && b.candidates == m.candidates
    requires !Overlay(m.candidates)
    ensures Step(cfg, a, b)
  {
    LaterTransitive(a, m, b);
    if b.generation > a.generation && a.phase != OwnerAction { assert CarriedForward(cfg, m, b); }
    if a.phase == OwnerAction && b.phase != OwnerAction { assert FrozenWhole(cfg, m, b); }
  }

  lemma ReleaseKeeps(cfg: Config, t: Db, c: Receipt, v: Candidate, now: real)
    requires Core(cfg, t) && c in t.candidates && IsOverlay(t.candidates[c])
    requires CandidateRow(t.generation, t.slots, c, v) && v.state == Closed
    ensures Core(cfg, WithCandidate(t, c, v)) && Inv(cfg, Advanced(cfg, WithCandidate(t, c, v), now))
  {
    CandidateKeeps(cfg, t, c, v);
    AdvancedKeeps(cfg, WithCandidate(t, c, v), now);
  }

  /** Releasing the overlay and then advancing is one step. */
  lemma ReleaseIsStep(cfg: Config, t: Db, c: Receipt, v: Candidate, now: real)
    requires Core(cfg, t) && c in t.candidates && IsOverlay(t.candidates[c])
    requires CandidateRow(t.generation, t.slots, c, v) && v.state == Closed
    ensures Step(cfg, t, Advanced(cfg, WithCandidate(t, c, v), now))
  {
    var m := WithCandidate(t, c, v);
    CandidateKeeps(cfg, t, c, v);
    NoOverlayLeft(t.generation, t.slots, t.candidates, c, v);
    AdvancedKeeps(cfg, m, now);
    StepAfterRelease(cfg, t, m, Advanced(cfg, m, now));
  }

  lemma NoOverlayLeft(g: nat, slots: map<Name, Slot>, cs: map<Receipt, Candidate>, c: Receipt, v: Candidate)
    requires CandidatesOk(g, slots, cs) && c in cs && IsOverlay(cs[c]) && v.state == Closed
    ensures !Overlay(cs[c := v])
  {}
}
