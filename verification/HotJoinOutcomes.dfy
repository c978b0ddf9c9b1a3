/** What a broker's loop does to the message it holds, read off any execution, one step and one receipt at a time. */
module HotJoinOutcomes {
  import opened Wrappers
  import opened TurnTracking
  import opened Deliveries
  import opened HotJoin

  /** Broker `b` is still the recorded owner of the message it holds. */
  ghost predicate Owns(s: System, b: Name, m: Name) {
    m in s.ledger.deliveries && s.ledger.deliveries[m].state == Routing && s.ledger.deliveries[m].owner == Some(b)
  }

  /** Nothing changes but the row and the tries of `m` and the state of broker `b`. */
  ghost predicate OnlyTouches(s: System, t: System, m: Name, b: Name) {
    && t.clients == s.clients && t.ledger.messages == s.ledger.messages
    && t.ledger.deliveries.Keys == s.ledger.deliveries.Keys && t.tries.Keys == s.tries.Keys
    && (forall k :: k in s.ledger.deliveries && k != m ==> t.ledger.deliveries[k] == s.ledger.deliveries[k])
    && (forall k :: k in s.tries && k != m ==> t.tries[k] == s.tries[k])
    && b in s.brokers && b in t.brokers && t.brokers == s.brokers[b := s.brokers[b].(pc := t.brokers[b].pc)]
  }

  /** The row is handed back in state `state`, on the thread and turn it was claimed for. */
  ghost predicate HandedBack(d: Delivery, e: Delivery, state: State, thread: Name, turn: Option<Name>) {
    && e.state == state && e.owner.None? && e.lease.None? && e.attempts == d.attempts
    && e.thread == Some(thread) && (turn.Some? ==> e.turn == turn) && (turn.None? ==> e.turn == d.turn)
  }

  /** Broker `b` holds `m`, which is on record with its tries. */
  ghost predicate Has(s: System, b: Name, m: Name) {
    && b in s.brokers && Holds(s.brokers[b], m)
    && m in s.ledger.messages && m in s.ledger.deliveries && m in s.tries
  }

  /** The state in which an answered RPC leaves its message. */
  ghost predicate Fits(msg: Message, answer: Answer, state: State) {
    match answer
    case Accepted => state == if msg.kind == Interrupt then InterruptAccepted else SteerAccepted
    case Rejected => state == if msg.kind == Text && msg.fallback == Queue then Queued else Failed
    case Lost => state == DeliveryUnknown
  }

  /** A row still owned is handed back and the broker goes on; any other is left alone and the broker stops. */
  ghost predicate Reported(s: System, t: System, b: Name, m: Name, turn: Option<Name>)
    requires Has(s, b, m) && OnlyTouches(s, t, m, b)
  {
    var d, e := s.ledger.deliveries[m], t.ledger.deliveries[m];
    if Owns(s, b, m) then t.brokers[b].pc == Idle && HandedBack(d, e, e.state, s.brokers[b].thread, turn)
    else e == d && t.brokers[b].pc == Stopped
  }

  lemma ReplyStep(s: System, b: Name, answer: Answer)
    requires SysOk(s) && Enabled(s, Reply(b, answer))
    ensures var k, t := s.brokers[b], Apply(s, Reply(b, answer));
      var m := k.pc.message;
      && Has(s, b, m) && OnlyTouches(s, t, m, b) && Reported(s, t, b, m, Some(k.pc.on))
      && (Owns(s, b, m) ==> Fits(s.ledger.messages[m], answer, t.ledger.deliveries[m].state))
  {
    var k := s.brokers[b];
    assert HeldOk(s, b, k);
    var m := k.pc.message;
    assert MessageOk(s.clients, s.ledger.messages[m], s.ledger.deliveries[m], s.tries[m]);
  }

  lemma ReplyMarks(s: System, b: Name, answer: Answer)
    requires SysOk(s) && Enabled(s, Reply(b, answer))
    ensures var k := s.brokers[b]; var m := k.pc.message;
      && m in s.tries && s.tries[m] != [] && m in Apply(s, Reply(b, answer)).tries
      && var l := s.tries[m];
         Apply(s, Reply(b, answer)).tries[m] ==
           if answer == Rejected then l[|l| - 1 := Try(k.client, k.thread, k.pc.on, true, true)] else l
  {
    assert HeldOk(s, b, s.brokers[b]);
  }

  /**
   * The answer to an RPC. Accepted text is steered and an accepted interrupt interrupts, on the very turn the RPC was
   * for; a definite rejection puts queue-fallback text back to wait, fails everything else, and is the only answer
   * logged as one; a lost answer makes the delivery unknown. If the row was closed behind the broker's back it stays
   * as it is and the broker stops.
   */
  lemma ReplyOutcome(h: seq<System>, es: seq<Event>, n: nat)
    requires Execution(h, es) && n < |es| && es[n].Reply?
    ensures es[n].broker in h[n].brokers && h[n].brokers[es[n].broker].pc.Sent?
    ensures var b := es[n].broker; var k := h[n].brokers[b]; var m := k.pc.message;
      && Has(h[n], b, m) && OnlyTouches(h[n], h[n + 1], m, b) && Reported(h[n], h[n + 1], b, m, Some(k.pc.on))
      && (Owns(h[n], b, m) ==> Fits(h[n].ledger.messages[m], es[n].answer, h[n + 1].ledger.deliveries[m].state))
      && var l := h[n].tries[m];
      && l != []
      && h[n + 1].tries[m] ==
           if es[n].answer == Rejected then l[|l| - 1 := Try(k.client, k.thread, k.pc.on, true, true)] else l
  {
    StepAt(h, es, n);
    ReplyStep(h[n], es[n].broker, es[n].answer);
    ReplyMarks(h[n], es[n].broker, es[n].answer);
  }

  /** The message is bound to another thread or turn than the claimed one. */
  ghost predicate Misbound(k: Broker, turn: Name, msg: Message) {
    msg.binding.Some? && msg.binding.value != Binding(k.thread, turn)
  }

  /**
   * After a claim: without an active turn queue-fallback text waits and everything else fails, and a message bound to
   * another thread or turn fails, both without an RPC; otherwise the RPC is issued for exactly the claimed turn.
   */
  lemma DispatchOutcome(h: seq<System>, es: seq<Event>, n: nat)
    requires Execution(h, es) && n < |es| && es[n].Dispatch?
    ensures es[n].broker in h[n].brokers && h[n].brokers[es[n].broker].pc.Holding?
    ensures var b := es[n].broker; var k := h[n].brokers[b]; var m, turn := k.pc.message, k.pc.turn;
      && Has(h[n], b, m) && OnlyTouches(h[n], h[n + 1], m, b)
      && var msg, l := h[n].ledger.messages[m], h[n].tries[m];
      && if turn.Some? && !Misbound(k, turn.value, msg)
         then
           && h[n + 1].ledger == h[n].ledger && h[n + 1].brokers[b].pc == Sent(m, turn.value) && l != []
           && h[n + 1].tries[m] == l[|l| - 1 := Try(k.client, k.thread, turn.value, true, false)]
         else
           && h[n + 1].tries == h[n].tries && Reported(h[n], h[n + 1], b, m, turn)
           && (Owns(h[n], b, m) ==>
                h[n + 1].ledger.deliveries[m].state ==
                  if turn.None? && msg.kind == Text && msg.fallback == Queue then Queued else Failed)
  {
    StepAt(h, es, n);
    var b := es[n].broker;
    var k := h[n].brokers[b];
    assert HeldOk(h[n], b, k);
    var m := k.pc.message;
    assert MessageOk(h[n].clients, h[n].ledger.messages[m], h[n].ledger.deliveries[m], h[n].tries[m]);
  }

  /** What a claim may take: waiting, of this target and thread, and not queued on the very turn that is active. */
  ghost predicate Takeable(k: Broker, seen: Option<Name>, m: Message, d: Delivery) {
    && m.target == k.target && (d.thread.None? || d.thread == Some(k.thread))
    && (d.state == Persisted || (d.state == Queued && seen.Some? && d.turn != seen))
  }

  /** The row as expiry leaves it: a claim of the target whose lease has run out is unknown. */
  ghost function AfterExpiry(k: Broker, now: int, m: Message, d: Delivery): Delivery {
    if m.target == k.target && d.state == Routing && d.lease.Some? && d.lease.value < now
    then Delivery(DeliveryUnknown, None, None, d.attempts, d.thread, d.turn) else d
  }

  /** Every row but that of `picked` is as expiry leaves it, with the same tries. */
  ghost predicate RestExpired(s: System, t: System, k: Broker, now: int, picked: Option<Name>)
    requires s.ledger.deliveries.Keys == s.ledger.messages.Keys == s.tries.Keys
    requires t.ledger.deliveries.Keys == t.tries.Keys == s.tries.Keys
  {
    forall o :: o in s.ledger.messages && picked != Some(o) ==>
      && t.tries[o] == s.tries[o]
      && t.ledger.deliveries[o] == AfterExpiry(k, now, s.ledger.messages[o], s.ledger.deliveries[o])
  }

  /** `m` may be taken, and nothing older may. */
  ghost predicate Foremost(l: Ledger, k: Broker, seen: Option<Name>, m: Name)
    requires l.deliveries.Keys == l.messages.Keys
  {
    && m in l.messages && Takeable(k, seen, l.messages[m], l.deliveries[m])
    && forall o :: o in l.messages && Takeable(k, seen, l.messages[o], l.deliveries[o]) ==>
         l.messages[m].order <= l.messages[o].order
  }

  /** Expiry neither adds to nor takes from what may be taken. */
  lemma ExpiryKeepsTakeable(s: System, e: Event)
    requires SysOk(s) && e.Take? && Enabled(s, e)
    ensures var k := s.brokers[e.broker];
      forall o :: o in s.ledger.messages ==>
        && e.lapsed.deliveries[o] == AfterExpiry(k, e.now, s.ledger.messages[o], s.ledger.deliveries[o])
        && (Takeable(k, k.pc.seen, s.ledger.messages[o], s.ledger.deliveries[o]) <==>
              Claimable(s.ledger.messages[o], e.lapsed.deliveries[o], ClaimOf(e.broker, k, e.lease)))
        && (Takeable(k, k.pc.seen, s.ledger.messages[o], s.ledger.deliveries[o]) ==>
              e.lapsed.deliveries[o] == s.ledger.deliveries[o])
  {}

  /** A claim's effect on everything but the message it takes. */
  lemma TakeElsewhere(s: System, e: Event)
    requires SysOk(s) && e.Take? && Enabled(s, e)
    ensures s.ledger.deliveries.Keys == s.ledger.messages.Keys == s.tries.Keys
    ensures var t := Apply(s, e); t.ledger.deliveries.Keys == t.tries.Keys == s.tries.Keys
    ensures RestExpired(s, Apply(s, e), s.brokers[e.broker], e.now, e.pick)
  {
    ExpiryKeepsTakeable(s, e);
  }

  /**
   * A claim. Every expired claim of the target becomes unknown; the oldest message that may be taken is routed to
   * this broker alone, on its thread and the turn it saw, and its claim is logged; if none may be taken nothing else
   * happens.
   */
  lemma TakeOutcome(h: seq<System>, es: seq<Event>, n: nat)
    requires Execution(h, es) && n < |es| && es[n].Take?
    ensures es[n].broker in h[n].brokers && h[n].brokers[es[n].broker].pc.Looked?
    ensures h[n].ledger.deliveries.Keys == h[n].ledger.messages.Keys == h[n].tries.Keys
    ensures h[n + 1].ledger.deliveries.Keys == h[n + 1].tries.Keys == h[n].tries.Keys
    ensures RestExpired(h[n], h[n + 1], h[n].brokers[es[n].broker], es[n].now, es[n].pick)
    ensures var b := es[n].broker; var k := h[n].brokers[b]; var seen := k.pc.seen;
      match es[n].pick
      case None =>
        && h[n + 1].brokers == h[n].brokers[b := k.(pc := Idle)]
        && forall o :: o in h[n].ledger.messages ==>
             !Takeable(k, seen, h[n].ledger.messages[o], h[n].ledger.deliveries[o])
      case Some(m) =>
        && h[n + 1].brokers == h[n].brokers[b := k.(pc := Holding(m, seen))]
        && Foremost(h[n].ledger, k, seen, m)
        && var d := h[n].ledger.deliveries[m];
        && h[n + 1].ledger.deliveries[m] ==
             Delivery(Routing, Some(b), Some(es[n].now + es[n].lease), d.attempts + 1, Some(k.thread),
                      if seen.Some? then seen else d.turn)
        && h[n + 1].tries[m] ==
             h[n].tries[m] + (if seen.None? then [] else [Try(k.client, k.thread, seen.value, false, false)])
  {
    StepAt(h, es, n);
    TakeElsewhere(h[n], es[n]);
    TakeStep(h[n], es[n]);
  }

  lemma TakeStep(s: System, e: Event)
    requires SysOk(s) && e.Take? && Enabled(s, e)
    ensures var k, t := s.brokers[e.broker], Apply(s, e);
      match e.pick
      case None =>
        && t.brokers == s.brokers[e.broker := k.(pc := Idle)]
        && forall o :: o in s.ledger.messages ==>
             !Takeable(k, k.pc.seen, s.ledger.messages[o], s.ledger.deliveries[o])
      case Some(m) =>
        && t.brokers == s.brokers[e.broker := k.(pc := Holding(m, k.pc.seen))]
        && Foremost(s.ledger, k, k.pc.seen, m) && m in t.ledger.deliveries && m in t.tries
        && var d := s.ledger.deliveries[m];
        && t.ledger.deliveries[m] ==
             Delivery(Routing, Some(e.broker), Some(e.now + e.lease), d.attempts + 1, Some(k.thread),
                      if k.pc.seen.Some? then k.pc.seen else d.turn)
        && t.tries[m] ==
             s.tries[m] + (if k.pc.seen.None? then [] else [Try(k.client, k.thread, k.pc.seen.value, false, false)])
  {
    ExpiryKeepsTakeable(s, e);
    if e.pick.Some? { assert s.tries[e.pick.value] + [] == s.tries[e.pick.value]; }
  }

  /** The broker sees exactly the turn its client has active on its thread. */
  lemma LookOutcome(h: seq<System>, es: seq<Event>, n: nat)
    requires Execution(h, es) && n < |es| && es[n].Look?
    ensures es[n].broker in h[n].brokers && h[n].brokers[es[n].broker].client in h[n].clients
    ensures var b := es[n].broker; var k := h[n].brokers[b]; var active := h[n].clients[k.client].active;
      h[n + 1] == h[n].(brokers := h[n].brokers[b :=
        k.(pc := Looked(if k.thread in active then Some(active[k.thread]) else None))])
  {
    StepAt(h, es, n);
    assert HeldOk(h[n], es[n].broker, h[n].brokers[es[n].broker]);
  }

  // ------------------------------------------------------------------ receipts

  predicate Ends(e: Event, thread: Name, turn: Name) { e.FinishTurn? && e.thread == thread && e.turn == turn }

  /** Turn `turn` of `thread` has accepted the message. */
  predicate TakenOn(d: Delivery, thread: Name, turn: Name) {
    (d.state == SteerAccepted || d.state == InterruptAccepted) && d.thread == Some(thread) && d.turn == Some(turn)
  }

  lemma AcceptedStep(s: System, e: Event, m: Name, thread: Name, turn: Name)
    requires SysOk(s) && Enabled(s, e) && m in s.ledger.deliveries && TakenOn(s.ledger.deliveries[m], thread, turn)
    ensures m in Apply(s, e).ledger.deliveries
    ensures var d := s.ledger.deliveries[m];
      Apply(s, e).ledger.deliveries[m] ==
        if Ends(e, thread, turn) then Delivery(State.TurnCompleted, None, None, d.attempts, d.thread, d.turn) else d
  {
    assert MessageOk(s.clients, s.ledger.messages[m], s.ledger.deliveries[m], s.tries[m]);
    if e.Dispatch? || e.Reply? { assert HeldOk(s, e.broker, s.brokers[e.broker]); }
  }

  lemma CompletedStep(s: System, e: Event, m: Name)
    requires SysOk(s) && Enabled(s, e) && m in s.ledger.deliveries
    requires s.ledger.deliveries[m].state == State.TurnCompleted
    ensures m in Apply(s, e).ledger.deliveries && Apply(s, e).ledger.deliveries[m] == s.ledger.deliveries[m]
  {
    if e.Dispatch? || e.Reply? { assert HeldOk(s, e.broker, s.brokers[e.broker]); }
  }

  /** A terminal receipt is for good. */
  lemma {:induction false} ReceiptStays(h: seq<System>, es: seq<Event>, i: nat, j: nat, m: Name)
    requires Execution(h, es) && i <= j < |h| && m in h[i].ledger.deliveries
    requires h[i].ledger.deliveries[m].state == State.TurnCompleted
    ensures m in h[j].ledger.deliveries && h[j].ledger.deliveries[m] == h[i].ledger.deliveries[m]
    decreases j
  {
    if i < j {
      ReceiptStays(h, es, i, j - 1, m);
      StepAt(h, es, j - 1);
      CompletedStep(h[j - 1], es[j - 1], m);
    }
  }

  ghost predicate Ended(es: seq<Event>, i: nat, j: nat, thread: Name, turn: Name)
    requires i <= j <= |es|
  {
    exists n :: i <= n < j && Ends(es[n], thread, turn)
  }

  /** An accepted message keeps its row until its turn ends, and from then on has its receipt: exactly if the turn has
      ended since. */
  lemma {:induction false} AcceptedIsReceipted(h: seq<System>, es: seq<Event>, i: nat, j: nat, m: Name, thread: Name,
                                               turn: Name)
    requires Execution(h, es) && i <= j < |h| && m in h[i].ledger.deliveries
    requires TakenOn(h[i].ledger.deliveries[m], thread, turn)
    ensures m in h[j].ledger.deliveries
    ensures var d := h[i].ledger.deliveries[m];
      h[j].ledger.deliveries[m] ==
        if Ended(es, i, j, thread, turn) then Delivery(State.TurnCompleted, None, None, d.attempts, d.thread, d.turn)
        else d
    decreases j
  {
    if i < j {
      AcceptedIsReceipted(h, es, i, j - 1, m, thread, turn);
      StepAt(h, es, j - 1);
      assert Ended(es, i, j, thread, turn) <==> Ended(es, i, j - 1, thread, turn) || Ends(es[j - 1], thread, turn);
      if Ended(es, i, j - 1, thread, turn) {
        CompletedStep(h[j - 1], es[j - 1], m);
      } else {
        AcceptedStep(h[j - 1], es[j - 1], m, thread, turn);
      }
    }
  }
}
