/** The delivery ledger: owner messages, fenced claims and recorded outcomes. */
module Deliveries {
  import opened Wrappers

  datatype Kind = Text | Interrupt
  datatype Fallback = Queue | Fail

  /** The thread and turn an encouragement is bound to. */
  datatype Binding = Binding(thread: Name, turn: Name)

  /** `order` stands for creation time and id, by which messages are served; `key` is the sender's idempotency key. */
  datatype Message =
    Message(target: Name, kind: Kind, fallback: Fallback, binding: Option<Binding>, order: nat, key: Name, body: Name)

  /** The content whose digest a repeated key is compared by. */
  ghost predicate SameContent(a: Message, b: Message) {
    && a.target == b.target && a.kind == b.kind && a.fallback == b.fallback && a.binding == b.binding
    && a.key == b.key && a.body == b.body
  }

  predicate SameKey(a: Message, b: Message) { a.key == b.key }

  predicate NewKey(messages: map<Name, Message>, key: Name) { forall k :: k in messages ==> messages[k].key != key }

  datatype State =
    Persisted | Queued | Routing | SteerAccepted | InterruptAccepted | TurnCompleted | Failed | DeliveryUnknown

  datatype Delivery =
    Delivery(state: State, owner: Option<Name>, lease: Option<int>, attempts: nat, thread: Option<Name>,
             turn: Option<Name>)

  datatype Ledger = Ledger(messages: map<Name, Message>, deliveries: map<Name, Delivery>)

  const Fresh := Delivery(Persisted, None, None, 0, None, None)

  predicate Waiting(d: Delivery) { d.state == Persisted || d.state == Queued }

  /** Neither waiting nor being routed: no claim can take the message again. */
  predicate Closed(d: Delivery) { !Waiting(d) && d.state != Routing }

  ghost predicate LedgerOk(l: Ledger) {
    && l.deliveries.Keys == l.messages.Keys
    && (forall a, b {:trigger SameKey(l.messages[a], l.messages[b])} ::
          a in l.messages && b in l.messages && SameKey(l.messages[a], l.messages[b]) ==> a == b)
    && forall m :: m in l.messages ==> RowOk(l.messages[m], l.deliveries[m])
  }

  /** An encouragement is fail-only text; only queue-fallback text is ever queued; a claim has an owner. */
  predicate RowOk(m: Message, d: Delivery) {
    && (m.binding.Some? ==> m.fallback == Fail && m.kind == Text)
    && (d.state == Queued ==> m.fallback == Queue && m.kind == Text)
    && (d.state == Routing <==> d.owner.Some?)
  }

  // ------------------------------------------------------------------ claiming

  datatype Claim = Claim(target: Name, owner: Name, allowQueued: bool, lease: int, thread: Name, turn: Option<Name>)

  ghost predicate Expired(m: Message, d: Delivery, c: Claim, now: int) {
    m.target == c.target && d.state == Routing && d.lease.Some? && d.lease.value < now
  }

  ghost function Lapse(d: Delivery): Delivery { d.(state := DeliveryUnknown, owner := None, lease := None) }

  /** `next` is `l` with every expired claim of the target made unknown. */
  ghost predicate Lapsed(l: Ledger, c: Claim, now: int, next: Ledger) {
    && next.messages == l.messages && next.deliveries.Keys == l.deliveries.Keys
    && forall m :: m in l.deliveries && m in l.messages ==>
         next.deliveries[m] ==
           if Expired(l.messages[m], l.deliveries[m], c, now) then Lapse(l.deliveries[m])
           else l.deliveries[m]
  }

  /** Never a queued message on the turn that refused it, never a message of another thread. */
  ghost predicate Claimable(m: Message, d: Delivery, c: Claim) {
    && m.target == c.target
    && (d.state == Persisted || (c.allowQueued && d.state == Queued && (c.turn.Some? ==> d.turn != c.turn)))
    && (d.thread.Some? ==> d.thread == Some(c.thread))
  }

  ghost function Routed(d: Delivery, c: Claim, now: int): Delivery {
    Delivery(Routing, Some(c.owner), Some(now + c.lease), d.attempts + 1,
             if d.thread.Some? then d.thread else Some(c.thread), if c.turn.Some? then c.turn else d.turn)
  }

  ghost predicate IsOldest(l: Ledger, c: Claim, m: Name) {
    && m in l.messages && m in l.deliveries && Claimable(l.messages[m], l.deliveries[m], c)
    && forall k :: k in l.messages && k in l.deliveries && Claimable(l.messages[k], l.deliveries[k], c) ==>
         l.messages[m].order <= l.messages[k].order
  }

  ghost function WithClaim(l: Ledger, c: Claim, now: int, m: Name): Ledger
    requires m in l.deliveries
  {
    l.(deliveries := l.deliveries[m := Routed(l.deliveries[m], c, now)])
  }

  // ----------------------------------------------------------------- recording

  datatype Outcome =
    Outcome(state: State, thread: Option<Name>, turn: Option<Name>, owner: Option<Name>, expected: State)

  /** The fence: expected state, owner, thread and turn. */
  ghost predicate CanRecord(l: Ledger, m: Name, o: Outcome) {
    && m in l.deliveries && l.deliveries[m].state == o.expected
    && (o.owner.Some? ==> l.deliveries[m].owner == o.owner)
    && (o.thread.Some? && l.deliveries[m].thread.Some? ==> l.deliveries[m].thread == o.thread)
    && (o.turn.Some? && l.deliveries[m].turn.Some? ==> l.deliveries[m].turn == o.turn)
  }

  ghost function Recorded(d: Delivery, o: Outcome): Delivery {
    Delivery(o.state, None, None, d.attempts, if d.thread.Some? then d.thread else o.thread,
             if d.turn.Some? then d.turn else o.turn)
  }

  ghost function WithRecord(l: Ledger, m: Name, o: Outcome): Ledger
    requires m in l.deliveries
  {
    l.(deliveries := l.deliveries[m := Recorded(l.deliveries[m], o)])
  }

  ghost predicate AcceptedBy(d: Delivery, thread: Name, turn: Name) {
    (d.state == SteerAccepted || d.state == InterruptAccepted) && d.thread == Some(thread) && d.turn == Some(turn)
  }

  ghost function Finished(d: Delivery): Delivery { d.(state := TurnCompleted, owner := None, lease := None) }

  ghost predicate TurnDone(l: Ledger, thread: Name, turn: Name, next: Ledger) {
    && next.messages == l.messages && next.deliveries.Keys == l.deliveries.Keys
    && forall m :: m in l.deliveries ==>
         next.deliveries[m] ==
           if AcceptedBy(l.deliveries[m], thread, turn) then Finished(l.deliveries[m])
           else l.deliveries[m]
  }

  /** `HotJoinStore`, its delivery half. */
  class DeliveryLedger {
    var messages: map<Name, Message>
    var deliveries: map<Name, Delivery>

    ghost function State(): Ledger reads this { Ledger(messages, deliveries) }

    ghost predicate Valid() reads this { LedgerOk(State()) }

    constructor ()
      ensures State() == Ledger(map[], map[]) && Valid()
    {
      messages, deliveries := map[], map[];
    }

    /** A new message waits; a repeated key answers with the message it stands for, and only for the same content. */
    method Enqueue(id: Name, m: Message) returns (r: Option<Name>)
      requires Valid() && (m.binding.Some? ==> m.fallback == Fail && m.kind == Text)
      modifies this
      ensures Valid()
      ensures NewKey(old(messages), m.key) ==> r == if id in old(messages) then None else Some(id)
      ensures NewKey(old(messages), m.key) && r.Some? ==>
        State() == Ledger(old(messages)[id := m], old(deliveries)[id := Fresh])
      ensures !NewKey(old(messages), m.key) || r.None? ==> State() == old(State())
      ensures !NewKey(old(messages), m.key) && r.Some? ==> r.value in messages && SameContent(messages[r.value], m)
      ensures !NewKey(old(messages), m.key) && r.None? ==>
        exists k :: k in messages && messages[k].key == m.key && !SameContent(messages[k], m)
    {
      if k :| k in messages && messages[k].key == m.key {
        return if messages[k].(order := 0) == m.(order := 0) then Some(k) else None;
      }
      if id in messages { return None; }
      messages, deliveries := messages[id := m], deliveries[id := Fresh];
      return Some(id);
    }

    /** Expired claims first become unknown; then the oldest claimable message, if any, is routed to the claimer. */
    method Take(c: Claim, now: int) returns (r: Option<Name>, ghost lapsed: Ledger)
      requires Valid()
      modifies this`deliveries
      ensures Valid() && LedgerOk(lapsed) && Lapsed(old(State()), c, now, lapsed)
      ensures r.Some? ==> IsOldest(lapsed, c, r.value) && State() == WithClaim(lapsed, c, now, r.value)
      ensures r.None? ==>
        && State() == lapsed
        && forall m :: m in lapsed.messages ==> !Claimable(lapsed.messages[m], lapsed.deliveries[m], c)
    {
      LapseExpired(c, now);
      lapsed := State();
      r := FindOldest(c);
      if r.Some? { Route(c, now, r.value); }
    }

    /** The claimer's row: its thread and turn, unless the row had them already. */
    method Route(c: Claim, now: int, m: Name)
      requires Valid() && m in deliveries
      modifies this`deliveries
      ensures Valid() && State() == WithClaim(old(State()), c, now, m)
    {
      var d := deliveries[m];
      deliveries := deliveries[m :=
        Delivery(Routing, Some(c.owner), Some(now + c.lease), d.attempts + 1,
                 if d.thread.None? then Some(c.thread) else d.thread, if c.turn.None? then d.turn else c.turn)];
    }

    /** A claim of the target whose lease has run out has an unknown outcome. */
    method LapseExpired(c: Claim, now: int)
      requires Valid()
      modifies this`deliveries
      ensures Valid() && Lapsed(old(State()), c, now, State())
    {
      var before := deliveries;
      deliveries := map m | m in before ::
        var d := before[m];
        if messages[m].target == c.target && d.state == Routing && d.lease.Some? && d.lease.value < now
        then Delivery(DeliveryUnknown, None, None, d.attempts, d.thread, d.turn)
        else d;
    }

    method FindOldest(c: Claim) returns (r: Option<Name>)
      requires Valid()
      ensures r.Some? ==> IsOldest(State(), c, r.value)
      ensures r.None? ==> forall m :: m in messages ==> !Claimable(messages[m], deliveries[m], c)
    {
      r := None;
      var todo := messages.Keys;
      while todo != {}
        invariant todo <= messages.Keys
        invariant r.Some? ==> r.value in messages && Claimable(messages[r.value], deliveries[r.value], c)
        invariant forall k :: k in messages && k !in todo && Claimable(messages[k], deliveries[k], c) ==>
          r.Some? && messages[r.value].order <= messages[k].order
      {
        var k :| k in todo;
        var m, d := messages[k], deliveries[k];
        var waits := d.state == Persisted
          || (d.state == Queued && c.allowQueued && (c.turn.None? || d.turn.None? || d.turn.value != c.turn.value));
        var here := m.target == c.target && (d.thread.None? || d.thread.value == c.thread);
        if waits && here && (r.None? || m.order < messages[r.value].order) { r := Some(k); }
        todo := todo - {k};
      }
    }

    /** One fenced transition; a lost fence changes nothing. */
    method Record(m: Name, o: Outcome) returns (ok: bool)
      requires Valid()
      requires (o.state == Queued && m in messages ==> messages[m].fallback == Queue && messages[m].kind == Text)
      requires o.state != Routing
      modifies this`deliveries
      ensures Valid() && ok == CanRecord(old(State()), m, o)
      ensures State() == if ok then WithRecord(old(State()), m, o) else old(State())
    {
      if m !in deliveries { return false; }
      var d := deliveries[m];
      ok := d.state == o.expected && (o.owner.Some? ==> d.owner == o.owner)
        && (o.thread.Some? && d.thread.Some? ==> d.thread == o.thread)
        && (o.turn.Some? && d.turn.Some? ==> d.turn == o.turn);
      if ok {
        deliveries := deliveries[m :=
          Delivery(o.state, None, None, d.attempts, if d.thread.None? then o.thread else d.thread,
                   if d.turn.None? then o.turn else d.turn)];
      }
    }

    /** Receipts for everything a terminal turn had accepted. */
    method CompleteTurn(thread: Name, turn: Name)
      requires Valid()
      modifies this`deliveries
      ensures Valid() && TurnDone(old(State()), thread, turn, State())
    {
      var before := deliveries;
      deliveries := map m | m in before ::
        var d := before[m];
        if d.state in {SteerAccepted, InterruptAccepted} && d.thread == Some(thread) && d.turn == Some(turn)
        then Delivery(TurnCompleted, None, None, d.attempts, d.thread, d.turn)
        else d;
    }
  }
}
