/**
 * Brokers, clients and the delivery ledger together, one atomic step at a time.
 * Any number of brokers run at once; between any two steps of one broker the
 * others, the clients and the owner may take steps of their own.
 */
module HotJoin {
  import opened Wrappers
  import opened TurnTracking
  import opened Deliveries

  /** Where a broker stands in its loop. */
  datatype Pc =
    | Idle
    | Looked(seen: Option<Name>)                 // has read the client's active turn
    | Holding(message: Name, turn: Option<Name>) // has claimed, not yet dispatched
    | Sent(message: Name, on: Name)              // has issued the RPC, no answer yet
    | Stopped

  /** A broker's name is the owner its claims are recorded under. */
  datatype Broker = Broker(client: Name, target: Name, thread: Name, pc: Pc)

  /** One claim of a message with an active turn, and what became of its RPC. */
  datatype Try = Try(client: Name, thread: Name, turn: Name, sent: bool, rejected: bool)

  datatype System =
    System(ledger: Ledger, clients: map<Name, Client>, brokers: map<Name, Broker>, tries: map<Name, seq<Try>>)

  const Start := System(Ledger(map[], map[]), map[], map[], map[])

  // -------------------------------------------------------------------- steps

  datatype Answer = Accepted | Rejected | Lost

  datatype Event =
    | Enqueue(id: Name, message: Message)
    | Connect(client: Name)
    | Notify(client: Name, notice: Notice)
    | Launch(broker: Name, start: Broker)
    | Look(broker: Name)
    | Take(broker: Name, lease: int, now: int, lapsed: Ledger, pick: Option<Name>)
    | Dispatch(broker: Name)
    | Reply(broker: Name, answer: Answer)
    | Crash(broker: Name)
    | Settle(id: Name, outcome: Outcome)         // reconciliation from the thread's history
    | FinishTurn(thread: Name, turn: Name, done: Ledger)

  function ClaimOf(b: Name, k: Broker, lease: int): Claim
    requires k.pc.Looked?
  {
    Claim(k.target, b, k.pc.seen.Some?, lease, k.thread, k.pc.seen)
  }

  ghost predicate Enabled(s: System, e: Event) {
    match e
    case Enqueue(m, msg) =>
      && m !in s.ledger.messages && NewKey(s.ledger.messages, msg.key)
      && (msg.binding.Some? ==> msg.fallback == Fail && msg.kind == Text)
    case Connect(c) => c !in s.clients
    case Notify(c, _) => c in s.clients
    case Launch(b, k) => b !in s.brokers && k.client in s.clients && k.pc == Idle
    case Look(b) => b in s.brokers && s.brokers[b].pc == Idle
    case Take(b, lease, now, lapsed, pick) =>
      && b in s.brokers && s.brokers[b].pc.Looked?
      && var c := ClaimOf(b, s.brokers[b], lease);
      && Lapsed(s.ledger, c, now, lapsed)
      && (pick.Some? ==> IsOldest(lapsed, c, pick.value))
      && (pick.None? ==>
           forall m :: m in lapsed.messages && m in lapsed.deliveries ==>
             !Claimable(lapsed.messages[m], lapsed.deliveries[m], c))
    case Dispatch(b) => b in s.brokers && s.brokers[b].pc.Holding?
    case Reply(b, _) => b in s.brokers && s.brokers[b].pc.Sent?
    case Crash(b) => b in s.brokers
    case Settle(m, o) =>
      && (o.expected == Routing || o.expected == DeliveryUnknown)
      && (o.state == SteerAccepted || (o.state == DeliveryUnknown && o.expected == Routing))
    case FinishTurn(t, u, done) => TurnDone(s.ledger, t, u, done)
  }

  function WithPc(s: System, b: Name, pc: Pc): System
    requires b in s.brokers
  {
    s.(brokers := s.brokers[b := s.brokers[b].(pc := pc)])
  }

  /** Records an outcome for the broker's own claim; a lost fence stops the broker. */
  ghost function Report(s: System, b: Name, m: Name, o: Outcome): System
    requires b in s.brokers
  {
    if CanRecord(s.ledger, m, o) then WithPc(s, b, Idle).(ledger := WithRecord(s.ledger, m, o))
    else WithPc(s, b, Stopped)
  }

  predicate Requeues(m: Message) { m.fallback == Queue && m.kind == Text }

  function Mark(tries: map<Name, seq<Try>>, m: Name, t: Try): map<Name, seq<Try>>
    requires m in tries && tries[m] != []
  {
    tries[m := tries[m][|tries[m]| - 1 := t]]
  }

  function Last(tries: map<Name, seq<Try>>, m: Name): Try
    requires m in tries && tries[m] != []
  {
    tries[m][|tries[m]| - 1]
  }

  ghost function Taken(s: System, b: Name, lease: int, now: int, lapsed: Ledger, pick: Option<Name>): System
    requires b in s.brokers && s.brokers[b].pc.Looked?
    requires (pick.Some? ==> pick.value in lapsed.deliveries && pick.value in s.tries)
  {
    var k := s.brokers[b];
    if pick.None? then WithPc(s, b, Idle).(ledger := lapsed)
    else
      WithPc(s, b, Holding(pick.value, k.pc.seen)).(
        ledger := WithClaim(lapsed, ClaimOf(b, k, lease), now, pick.value),
        tries :=
          if k.pc.seen.None? then s.tries
          else
            var try := Try(k.client, k.thread, k.pc.seen.value, false, false);
            s.tries[pick.value := s.tries[pick.value] + [try]])
  }

  /** After the claim: no active turn, a broken exact binding, or the RPC. */
  ghost function Dispatched(s: System, b: Name): System
    requires b in s.brokers && s.brokers[b].pc.Holding? && s.brokers[b].pc.message in s.ledger.messages
    requires s.brokers[b].pc.turn.Some? ==> s.brokers[b].pc.message in s.tries && s.tries[s.brokers[b].pc.message] != []
  {
    var k := s.brokers[b];
    var m, turn := k.pc.message, k.pc.turn;
    var msg := s.ledger.messages[m];
    if turn.None? then Report(s, b, m,
                              Outcome(if Requeues(msg) then Queued else Failed, Some(k.thread), None, Some(b), Routing))
    else if msg.binding.Some? && msg.binding.value != Binding(k.thread, turn.value) then
      Report(s, b, m, Outcome(Failed, Some(k.thread), turn, Some(b), Routing))
    else WithPc(s, b, Sent(m, turn.value)).(tries := Mark(s.tries, m, Last(s.tries, m).(sent := true)))
  }

  ghost function Answered(s: System, b: Name, answer: Answer): System
    requires b in s.brokers && s.brokers[b].pc.Sent? && s.brokers[b].pc.message in s.ledger.messages
    requires s.brokers[b].pc.message in s.tries && s.tries[s.brokers[b].pc.message] != []
  {
    var k := s.brokers[b];
    var m, msg := k.pc.message, s.ledger.messages[k.pc.message];
    match answer
    case Accepted => Report(s, b, m,
                            Outcome(if msg.kind == Interrupt then InterruptAccepted else SteerAccepted, Some(k.thread),
                                    Some(k.pc.on), Some(b), Routing))
    case Rejected =>
      Report(s.(tries := Mark(s.tries, m, Last(s.tries, m).(rejected := true))), b, m,
             Outcome(if Requeues(msg) then Queued else Failed, Some(k.thread), None, Some(b), Routing))
    case Lost => Report(s, b, m, Outcome(DeliveryUnknown, Some(k.thread), Some(k.pc.on), Some(b), Routing))
  }

  ghost function Apply(s: System, e: Event): System
    requires SysOk(s) && Enabled(s, e)
  {
    match e
    case Enqueue(m, msg) => s.(ledger := Ledger(s.ledger.messages[m := msg], s.ledger.deliveries[m := Fresh]),
                               tries := s.tries[m := []])
    case Connect(c) => s.(clients := s.clients[c := NoTurns])
    case Notify(c, n) => s.(clients := s.clients[c := Notified(s.clients[c], n)])
    case Launch(b, k) => s.(brokers := s.brokers[b := k])
    case Look(b) =>
      assert HeldOk(s, b, s.brokers[b]);
      var c := s.clients[s.brokers[b].client];
      WithPc(s, b, Looked(if s.brokers[b].thread in c.active then Some(c.active[s.brokers[b].thread]) else None))
    case Take(b, lease, now, lapsed, pick) => Taken(s, b, lease, now, lapsed, pick)
    case Dispatch(b) => assert HeldOk(s, b, s.brokers[b]); Dispatched(s, b)
    case Reply(b, a) => assert HeldOk(s, b, s.brokers[b]); Answered(s, b, a)
    case Crash(b) => WithPc(s, b, Stopped)
    case Settle(m, o) => if CanRecord(s.ledger, m, o) then s.(ledger := WithRecord(s.ledger, m, o)) else s
    case FinishTurn(_, _, done) => s.(ledger := done)
  }

  // ---------------------------------------------------------------- invariant

  /** Every RPC but perhaps the last was definitely rejected. */
  ghost predicate AllSettled(l: seq<Try>, n: nat) { forall k :: 0 <= k < n && k < |l| && l[k].sent ==> l[k].rejected }

  predicate Turned(a: Try, b: Try) { a.turn != b.turn }

  ghost predicate Turning(l: seq<Try>) { forall k :: 0 < k < |l| ==> Turned(l[k - 1], l[k]) }

  ghost predicate TryOk(clients: map<Name, Client>, msg: Message, d: Delivery, t: Try) {
    && t.client in clients && t.thread in clients[t.client].bindings && clients[t.client].bindings[t.thread] == t.turn
    && d.thread == Some(t.thread)
    && (t.sent && msg.binding.Some? ==> msg.binding.value == Binding(t.thread, t.turn))
    && (t.rejected ==> t.sent)
  }

  ghost predicate MessageOk(clients: map<Name, Client>, msg: Message, d: Delivery, l: seq<Try>) {
    && RowOk(msg, d)
    && (d.state == Persisted ==> l == [])
    && (Waiting(d) ==> AllSettled(l, |l|))
    && (l != [] ==> AllSettled(l, |l| - 1) && d.turn == Some(l[|l| - 1].turn))
    && Turning(l)
    && (forall k {:trigger TryOk(clients, msg, d, l[k])} :: 0 <= k < |l| ==> TryOk(clients, msg, d, l[k]))
  }

  predicate Holds(k: Broker, m: Name) { (k.pc.Holding? || k.pc.Sent?) && k.pc.message == m }

  /** A held message is routed to its holder, or closed behind its back. */
  ghost predicate HeldOk(s: System, b: Name, k: Broker) {
    && k.client in s.clients
    && (k.pc.Looked? && k.pc.seen.Some? ==>
         k.thread in s.clients[k.client].bindings && s.clients[k.client].bindings[k.thread] == k.pc.seen.value)
    && (k.pc.Holding? || k.pc.Sent? ==>
         && var m := k.pc.message;
         && m in s.ledger.messages && m in s.ledger.deliveries && m in s.tries
         && var d, l := s.ledger.deliveries[m], s.tries[m];
         && (Closed(d) || (d.state == Routing && d.owner == Some(b))) && d.thread == Some(k.thread)
         && (k.pc.Holding? && k.pc.turn.None? ==> AllSettled(l, |l|))
         && (k.pc.Holding? && k.pc.turn.Some? ==>
              l != [] && l[|l| - 1] == Try(k.client, k.thread, k.pc.turn.value, false, false))
         && (k.pc.Sent? ==> l != [] && l[|l| - 1] == Try(k.client, k.thread, k.pc.on, true, false)))
  }

  predicate BothHold(s: System, a: Name, b: Name, m: Name) {
    a in s.brokers && b in s.brokers && Holds(s.brokers[a], m) && Holds(s.brokers[b], m)
  }

  ghost predicate SysOk(s: System) {
    && s.ledger.deliveries.Keys == s.ledger.messages.Keys == s.tries.Keys
    && (forall c {:trigger ClientOk(s.clients[c])} :: c in s.clients ==> ClientOk(s.clients[c]))
    && (forall m {:trigger MessageOk(s.clients, s.ledger.messages[m], s.ledger.deliveries[m], s.tries[m])} ::
         m in s.ledger.messages ==>
         MessageOk(s.clients, s.ledger.messages[m], s.ledger.deliveries[m], s.tries[m]))
    && (forall b {:trigger HeldOk(s, b, s.brokers[b])} :: b in s.brokers ==> HeldOk(s, b, s.brokers[b]))
    && (forall a, b, m {:trigger BothHold(s, a, b, m)} :: BothHold(s, a, b, m) ==> a == b)
  }

  // ------------------------------------------------------------------- history

  predicate TryLater(a: Try, b: Try) {
    && a.client == b.client && a.thread == b.thread && a.turn == b.turn
    && (a.sent ==> b.sent) && (a.rejected ==> b.rejected)
  }

  ghost predicate TriesLater(a: seq<Try>, b: seq<Try>) {
    |a| <= |b| && forall k :: 0 <= k < |a| ==> TryLater(a[k], b[k])
  }

  /** A closed delivery stays closed and is never claimed again; the log of tries only grows. */
  ghost predicate MessageLater(d: Delivery, e: Delivery, a: seq<Try>, b: seq<Try>) {
    TriesLater(a, b) && (Closed(d) ==> Closed(e) && |b| == |a|)
  }

  ghost predicate Later(a: System, b: System) {
    && (forall c :: c in a.clients ==> c in b.clients && ClientLater(a.clients[c], b.clients[c]))
    && (forall m :: m in a.ledger.messages && m in a.ledger.deliveries && m in a.tries ==>
         && m in b.ledger.messages && m in b.ledger.deliveries && m in b.tries
         && b.ledger.messages[m] == a.ledger.messages[m]
         && MessageLater(a.ledger.deliveries[m], b.ledger.deliveries[m], a.tries[m], b.tries[m]))
  }

  lemma LaterReflexive(a: System)
    ensures Later(a, a)
  {}

  lemma LaterTransitive(a: System, b: System, c: System)
    requires Later(a, b) && Later(b, c)
    ensures Later(a, c)
  {}

  // ------------------------------------------------------------ building blocks

  ghost predicate Free(s: System, m: Name) { forall b :: b in s.brokers ==> !Holds(s.brokers[b], m) }

  /** A broker lets go of whatever it holds. */
  lemma Release(s: System, b: Name, pc: Pc)
    requires SysOk(s) && b in s.brokers && (pc == Idle || pc == Stopped)
    ensures SysOk(WithPc(s, b, pc))
    ensures forall m :: Holds(s.brokers[b], m) ==> Free(WithPc(s, b, pc), m)
  {
    var t := WithPc(s, b, pc);
    forall a | a in t.brokers ensures HeldOk(t, a, t.brokers[a]) { assert HeldOk(s, a, s.brokers[a]); }
    forall a, d, m | BothHold(t, a, d, m) ensures a == d { assert BothHold(s, a, d, m); }
    forall m, a | Holds(s.brokers[b], m) && a in t.brokers ensures !Holds(t.brokers[a], m) {
      if a != b && Holds(s.brokers[a], m) { assert BothHold(s, a, b, m); }
    }
  }

  function WithRow(s: System, m: Name, d: Delivery, l: seq<Try>): System {
    s.(ledger := s.ledger.(deliveries := s.ledger.deliveries[m := d]), tries := s.tries[m := l])
  }

  /** A message nobody holds may change in any way that keeps its own row sound. */
  lemma FreeChange(s: System, m: Name, d: Delivery, l: seq<Try>)
    requires SysOk(s) && m in s.ledger.messages && Free(s, m) && MessageOk(s.clients, s.ledger.messages[m], d, l)
    ensures SysOk(WithRow(s, m, d, l)) && Free(WithRow(s, m, d, l), m)
  {
    var t := WithRow(s, m, d, l);
    forall k | k in t.ledger.messages
      ensures MessageOk(t.clients, t.ledger.messages[k], t.ledger.deliveries[k], t.tries[k])
    {
      if k != m { assert MessageOk(s.clients, s.ledger.messages[k], s.ledger.deliveries[k], s.tries[k]); }
    }
    forall a | a in t.brokers ensures HeldOk(t, a, t.brokers[a]) {
      assert HeldOk(s, a, s.brokers[a]) && !Holds(s.brokers[a], m);
    }
    forall a, b, k | BothHold(t, a, b, k) ensures a == b { assert BothHold(s, a, b, k); }
  }

  /** A step that touches one message's row at most. */
  lemma OneRowLater(s: System, t: System, m: Name)
    requires t.clients == s.clients && t.ledger.messages == s.ledger.messages && m in s.ledger.deliveries
    requires m in s.tries
    requires m in t.ledger.deliveries && m in t.tries
    requires t.ledger.deliveries == s.ledger.deliveries[m := t.ledger.deliveries[m]]
    requires t.tries == s.tries[m := t.tries[m]]
    requires MessageLater(s.ledger.deliveries[m], t.ledger.deliveries[m], s.tries[m], t.tries[m])
    ensures Later(s, t)
  {
    LaterReflexive(s);
  }

  /** An idle broker takes hold of a message nobody holds. */
  lemma Grasp(s: System, b: Name, pc: Pc)
    requires SysOk(s) && b in s.brokers && (pc.Holding? || pc.Sent?) && Free(s, pc.message)
    requires HeldOk(s, b, s.brokers[b].(pc := pc))
    ensures SysOk(WithPc(s, b, pc))
  {
    var t := WithPc(s, b, pc);
    forall a | a in t.brokers ensures HeldOk(t, a, t.brokers[a]) {
      if a != b { assert HeldOk(s, a, s.brokers[a]); }
    }
    forall a, d, m | BothHold(t, a, d, m) ensures a == d {
      if a != b && d != b { assert BothHold(s, a, d, m); }
    }
  }

  /** A delivery that was not waiting is closed, or left alone. */
  predicate Shut(d: Delivery, e: Delivery) {
    || e == d
    || (&& !Waiting(d) && Closed(e) && e.owner.None?
        && (d.thread.Some? ==> e.thread == d.thread) && (d.turn.Some? ==> e.turn == d.turn))
  }

  /** Closing deliveries is always safe, whoever holds them. */
  lemma ShutOk(s: System, done: Ledger)
    requires SysOk(s) && done.messages == s.ledger.messages && done.deliveries.Keys == s.ledger.deliveries.Keys
    requires forall m :: m in s.ledger.deliveries ==> Shut(s.ledger.deliveries[m], done.deliveries[m])
    ensures SysOk(s.(ledger := done)) && Later(s, s.(ledger := done))
  {
    var t := s.(ledger := done);
    forall m | m in t.ledger.messages
      ensures MessageOk(t.clients, t.ledger.messages[m], t.ledger.deliveries[m], t.tries[m])
    {
      assert MessageOk(s.clients, s.ledger.messages[m], s.ledger.deliveries[m], s.tries[m]);
      ShutRow(s.clients, s.ledger.messages[m], s.ledger.deliveries[m], done.deliveries[m], s.tries[m]);
    }
    forall a | a in t.brokers ensures HeldOk(t, a, t.brokers[a]) { assert HeldOk(s, a, s.brokers[a]); }
    forall a, b, k | BothHold(t, a, b, k) ensures a == b { assert BothHold(s, a, b, k); }
    LaterReflexive(s);
  }

  lemma ShutRow(clients: map<Name, Client>, msg: Message, d: Delivery, e: Delivery, l: seq<Try>)
    requires MessageOk(clients, msg, d, l) && Shut(d, e)
    ensures MessageOk(clients, msg, e, l)
  {
    forall k | 0 <= k < |l| ensures TryOk(clients, msg, e, l[k]) { assert TryOk(clients, msg, d, l[k]); }
  }

  // --------------------------------------------------------------- every step

  lemma EnqueueKeeps(s: System, e: Event)
    requires SysOk(s) && e.Enqueue? && Enabled(s, e)
    ensures SysOk(Apply(s, e))
  {
    var t := Apply(s, e);
    forall m | m in t.ledger.messages
      ensures MessageOk(t.clients, t.ledger.messages[m], t.ledger.deliveries[m], t.tries[m])
    {
      if m != e.id { assert MessageOk(s.clients, s.ledger.messages[m], s.ledger.deliveries[m], s.tries[m]); }
    }
    forall a | a in t.brokers ensures HeldOk(t, a, t.brokers[a]) { assert HeldOk(s, a, s.brokers[a]); }
    forall a, b, k | BothHold(t, a, b, k) ensures a == b { assert BothHold(s, a, b, k); }
  }

  lemma EnqueueLater(s: System, e: Event)
    requires SysOk(s) && e.Enqueue? && Enabled(s, e)
    ensures Later(s, Apply(s, e))
  {
    LaterReflexive(s);
  }

  /** Clients only ever gain bindings, so nothing recorded about a client goes stale. */
  lemma ClientChange(s: System, c: Name, k: Client)
    requires SysOk(s) && ClientOk(k) && (c in s.clients ==> ClientLater(s.clients[c], k))
    ensures SysOk(s.(clients := s.clients[c := k])) && Later(s, s.(clients := s.clients[c := k]))
  {
    var t := s.(clients := s.clients[c := k]);
    forall m | m in t.ledger.messages
      ensures MessageOk(t.clients, t.ledger.messages[m], t.ledger.deliveries[m], t.tries[m])
    {
      var msg, d, l := s.ledger.messages[m], s.ledger.deliveries[m], s.tries[m];
      assert MessageOk(s.clients, msg, d, l);
      forall j | 0 <= j < |l| ensures TryOk(t.clients, msg, d, l[j]) { assert TryOk(s.clients, msg, d, l[j]); }
    }
    forall x | x in t.clients ensures ClientOk(t.clients[x]) { if x != c { assert ClientOk(s.clients[x]); } }
    forall a | a in t.brokers ensures HeldOk(t, a, t.brokers[a]) { assert HeldOk(s, a, s.brokers[a]); }
    forall a, b, m | BothHold(t, a, b, m) ensures a == b { assert BothHold(s, a, b, m); }
    LaterReflexive(s);
  }

  lemma LaunchKeeps(s: System, e: Event)
    requires SysOk(s) && (e.Launch? || e.Look?) && Enabled(s, e)
    ensures SysOk(Apply(s, e)) && Later(s, Apply(s, e))
  {
    var t := Apply(s, e);
    forall a | a in t.brokers ensures HeldOk(t, a, t.brokers[a]) {
      if a in s.brokers {
        assert HeldOk(s, a, s.brokers[a]);
        assert ClientOk(s.clients[s.brokers[a].client]);
      }
    }
    forall a, b, m | BothHold(t, a, b, m) ensures a == b { assert BothHold(s, a, b, m); }
    LaterReflexive(s);
  }

  /** Reporting on one's own claim: either the fence holds and the row moves on, or the broker stops. */
  lemma ReportKeeps(s: System, b: Name, m: Name, o: Outcome, l: seq<Try>)
    requires SysOk(s) && b in s.brokers && Holds(s.brokers[b], m) && m in s.ledger.messages
    requires o.expected == Routing && o.owner == Some(b) && o.thread == Some(s.brokers[b].thread)
    requires o.state != Persisted && o.state != Routing
    requires o.state == Queued ==> Requeues(s.ledger.messages[m]) && AllSettled(l, |l|)
    requires MessageOk(s.clients, s.ledger.messages[m], s.ledger.deliveries[m], l) && TriesLater(s.tries[m], l)
    requires |l| == |s.tries[m]|
    ensures var t := Report(s.(tries := s.tries[m := l]), b, m, o); SysOk(t) && Later(s, t)
  {
    var d := s.ledger.deliveries[m];
    var ok := CanRecord(s.ledger, m, o);
    var r := WithPc(s, b, if ok then Idle else Stopped);
    Release(s, b, if ok then Idle else Stopped);
    var e := if ok then Recorded(d, o) else d;
    if ok { RecordedRow(s.clients, s.ledger.messages[m], d, o, l); }
    FreeChange(r, m, e, l);
    assert s.ledger.deliveries[m := d] == s.ledger.deliveries;
    assert Report(s.(tries := s.tries[m := l]), b, m, o) == WithRow(r, m, e, l);
    OneRowLater(s, WithRow(r, m, e, l), m);
  }

  lemma RecordedRow(clients: map<Name, Client>, msg: Message, d: Delivery, o: Outcome, l: seq<Try>)
    requires MessageOk(clients, msg, d, l) && d.state == Routing && o.state != Persisted && o.state != Routing
    requires o.state == Queued ==> Requeues(msg) && AllSettled(l, |l|)
    ensures MessageOk(clients, msg, Recorded(d, o), l)
  {
    var e := Recorded(d, o);
    forall k | 0 <= k < |l| ensures TryOk(clients, msg, e, l[k]) { assert TryOk(clients, msg, d, l[k]); }
  }

  /** Changing only the flags of the last try. */
  lemma MarkRow(clients: map<Name, Client>, msg: Message, d: Delivery, l: seq<Try>, t: Try)
    requires MessageOk(clients, msg, d, l) && l != [] && TryLater(l[|l| - 1], t) && TryOk(clients, msg, d, t)
    requires !Waiting(d)
    ensures MessageOk(clients, msg, d, l[|l| - 1 := t]) && TriesLater(l, l[|l| - 1 := t])
  {
    var n, k := |l| - 1, l[|l| - 1 := t];
    forall j | 0 <= j < |k| ensures TryOk(clients, msg, d, k[j]) { if j < n { assert TryOk(clients, msg, d, l[j]); } }
    forall j | 0 < j < |k| ensures Turned(k[j - 1], k[j]) { assert Turned(l[j - 1], l[j]); }
  }

  lemma DispatchKeeps(s: System, b: Name)
    requires SysOk(s) && b in s.brokers && s.brokers[b].pc.Holding?
    ensures HeldOk(s, b, s.brokers[b]) && SysOk(Dispatched(s, b)) && Later(s, Dispatched(s, b))
  {
    var k := s.brokers[b];
    assert HeldOk(s, b, k);
    var m, turn := k.pc.message, k.pc.turn;
    var msg, d, l := s.ledger.messages[m], s.ledger.deliveries[m], s.tries[m];
    assert MessageOk(s.clients, msg, d, l);
    assert s.tries[m := l] == s.tries && s.(tries := s.tries[m := l]) == s;
    if turn.None? {
      ReportKeeps(s, b, m, Outcome(if Requeues(msg) then Queued else Failed, Some(k.thread), None, Some(b), Routing),
                  l);
    } else if msg.binding.Some? && msg.binding.value != Binding(k.thread, turn.value) {
      ReportKeeps(s, b, m, Outcome(Failed, Some(k.thread), turn, Some(b), Routing), l);
    } else {
      SendKeeps(s, b);
    }
  }

  lemma SendKeeps(s: System, b: Name)
    requires SysOk(s) && b in s.brokers && s.brokers[b].pc.Holding? && s.brokers[b].pc.turn.Some?
    requires HeldOk(s, b, s.brokers[b])
    requires var k := s.brokers[b]; var msg := s.ledger.messages[k.pc.message];
      msg.binding.Some? ==> msg.binding.value == Binding(k.thread, k.pc.turn.value)
    ensures SysOk(Dispatched(s, b)) && Later(s, Dispatched(s, b))
  {
    var k := s.brokers[b];
    var m := k.pc.message;
    var msg, d, l := s.ledger.messages[m], s.ledger.deliveries[m], s.tries[m];
    assert MessageOk(s.clients, msg, d, l);
    var n := |l| - 1;
    assert TryOk(s.clients, msg, d, l[n]);
    var t := l[n].(sent := true);
    var l2 := l[n := t];
    MarkRow(s.clients, msg, d, l, t);
    var r := WithPc(s, b, Idle);
    Release(s, b, Idle);
    FreeChange(r, m, d, l2);
    var q := WithRow(r, m, d, l2);
    assert s.ledger.deliveries[m := d] == s.ledger.deliveries;
    Grasp(q, b, Sent(m, k.pc.turn.value));
    assert Dispatched(s, b).brokers == WithPc(q, b, Sent(m, k.pc.turn.value)).brokers;
    assert Dispatched(s, b) == WithPc(q, b, Sent(m, k.pc.turn.value));
    OneRowLater(s, Dispatched(s, b), m);
  }

  lemma ReplyKeeps(s: System, b: Name, answer: Answer)
    requires SysOk(s) && b in s.brokers && s.brokers[b].pc.Sent?
    ensures HeldOk(s, b, s.brokers[b]) && SysOk(Answered(s, b, answer)) && Later(s, Answered(s, b, answer))
  {
    var k := s.brokers[b];
    assert HeldOk(s, b, k);
    var m := k.pc.message;
    var msg, d, l := s.ledger.messages[m], s.ledger.deliveries[m], s.tries[m];
    assert MessageOk(s.clients, msg, d, l);
    assert s.tries[m := l] == s.tries && s.(tries := s.tries[m := l]) == s;
    match answer
    case Accepted =>
      ReportKeeps(s, b, m,
                  Outcome(if msg.kind == Interrupt then InterruptAccepted
                          else SteerAccepted, Some(k.thread), Some(k.pc.on), Some(b), Routing), l);
    case Rejected =>
      var t := l[|l| - 1].(rejected := true);
      assert TryOk(s.clients, msg, d, l[|l| - 1]);
      MarkRow(s.clients, msg, d, l, t);
      ReportKeeps(s, b, m, Outcome(if Requeues(msg) then Queued else Failed, Some(k.thread), None, Some(b), Routing),
                  l[|l| - 1 := t]);
    case Lost =>
      ReportKeeps(s, b, m, Outcome(DeliveryUnknown, Some(k.thread), Some(k.pc.on), Some(b), Routing), l);
  }

  lemma LapseShuts(s: System, c: Claim, now: int, lapsed: Ledger)
    requires SysOk(s) && Lapsed(s.ledger, c, now, lapsed)
    ensures SysOk(s.(ledger := lapsed)) && Later(s, s.(ledger := lapsed))
  {
    ShutOk(s, lapsed);
  }

  /** A waiting message is held by nobody. */
  lemma WaitingIsFree(s: System, m: Name)
    requires SysOk(s) && m in s.ledger.deliveries && Waiting(s.ledger.deliveries[m])
    ensures Free(s, m)
  {
    forall b | b in s.brokers ensures !Holds(s.brokers[b], m) { assert HeldOk(s, b, s.brokers[b]); }
  }

  /** The row of a freshly claimed message. */
  lemma ClaimedRow(clients: map<Name, Client>, msg: Message, d: Delivery, l: seq<Try>, c: Claim, now: int,
                   t: Option<Try>)
    requires MessageOk(clients, msg, d, l) && Claimable(msg, d, c) && (t.Some? <==> c.turn.Some?)
    requires t.Some? ==>
      && t.value == Try(t.value.client, c.thread, c.turn.value, false, false)
      && t.value.client in clients && c.thread in clients[t.value.client].bindings
      && clients[t.value.client].bindings[c.thread] == c.turn.value
    ensures MessageOk(clients, msg, Routed(d, c, now), if t.Some? then l + [t.value] else l)
    ensures AllSettled(l, |l|)
  {
    var e, k := Routed(d, c, now), if t.Some? then l + [t.value] else l;
    forall j | 0 <= j < |k| ensures TryOk(clients, msg, e, k[j]) { if j < |l| { assert TryOk(clients, msg, d, l[j]); } }
    forall j | 0 < j < |k| ensures Turned(k[j - 1], k[j]) { if j < |l| { assert Turned(l[j - 1], l[j]); } }
  }

  lemma TakeKeeps(s: System, b: Name, lease: int, now: int, lapsed: Ledger, pick: Option<Name>)
    requires SysOk(s) && Enabled(s, Take(b, lease, now, lapsed, pick))
    ensures pick.Some? ==> pick.value in lapsed.deliveries && pick.value in s.tries
    ensures SysOk(Taken(s, b, lease, now, lapsed, pick)) && Later(s, Taken(s, b, lease, now, lapsed, pick))
  {
    var k := s.brokers[b];
    var c := ClaimOf(b, k, lease);
    var p := s.(ledger := lapsed);
    LapseShuts(s, c, now, lapsed);
    if pick.None? {
      Release(p, b, Idle);
    } else {
      GraspClaim(p, b, c, now, pick.value);
      LaterTransitive(s, p, Claimed(p, b, c, now, pick.value));
    }
  }

  ghost function Claimed(p: System, b: Name, c: Claim, now: int, m: Name): System
    requires b in p.brokers && m in p.ledger.deliveries && m in p.tries
  {
    WithPc(p, b, Holding(m, c.turn)).(
      ledger := WithClaim(p.ledger, c, now, m),
      tries :=
        if c.turn.None? then p.tries
        else p.tries[m := p.tries[m] + [Try(p.brokers[b].client, c.thread, c.turn.value, false, false)]])
  }

  lemma GraspClaim(p: System, b: Name, c: Claim, now: int, m: Name)
    requires SysOk(p) && b in p.brokers && p.brokers[b].pc.Looked? && c.owner == b && c.thread == p.brokers[b].thread
    requires c.turn == p.brokers[b].pc.seen
    requires IsOldest(p.ledger, c, m)
    ensures m in p.tries && SysOk(Claimed(p, b, c, now, m)) && Later(p, Claimed(p, b, c, now, m))
  {
    var k := p.brokers[b];
    var msg, d, l := p.ledger.messages[m], p.ledger.deliveries[m], p.tries[m];
    assert MessageOk(p.clients, msg, d, l) && HeldOk(p, b, k);
    WaitingIsFree(p, m);
    var t := if c.turn.Some? then Some(Try(k.client, c.thread, c.turn.value, false, false)) else None;
    ClaimedRow(p.clients, msg, d, l, c, now, t);
    var l2 := if t.Some? then l + [t.value] else l;
    FreeChange(p, m, Routed(d, c, now), l2);
    var q := WithRow(p, m, Routed(d, c, now), l2);
    assert p.tries[m := l] == p.tries;
    Grasp(q, b, Holding(m, c.turn));
    assert Claimed(p, b, c, now, m) == WithPc(q, b, Holding(m, c.turn));
    OneRowLater(p, Claimed(p, b, c, now, m), m);
  }

  /** Every step of every party keeps the system sound and never undoes what is settled. */
  lemma StepKeeps(s: System, e: Event)
    requires SysOk(s) && Enabled(s, e)
    ensures SysOk(Apply(s, e)) && Later(s, Apply(s, e))
  {
    match e
    case Enqueue(_, _) =>
      EnqueueKeeps(s, e);
      EnqueueLater(s, e);
    case Connect(c) => ClientChange(s, c, NoTurns);
    case Notify(c, n) =>
      assert ClientOk(s.clients[c]);
      NotifiedKeeps(s.clients[c], n);
      ClientChange(s, c, Notified(s.clients[c], n));
    case Launch(_, _) => LaunchKeeps(s, e);
    case Look(_) => LaunchKeeps(s, e);
    case Take(b, lease, now, lapsed, pick) => TakeKeeps(s, b, lease, now, lapsed, pick);
    case Dispatch(b) => DispatchKeeps(s, b);
    case Reply(b, a) => ReplyKeeps(s, b, a);
    case Crash(b) =>
      Release(s, b, Stopped);
      LaterReflexive(s);
    case Settle(m, o) =>
      if CanRecord(s.ledger, m, o) { ShutOk(s, WithRecord(s.ledger, m, o)); } else { LaterReflexive(s); }
    case FinishTurn(t, u, done) => ShutOk(s, done);
  }

  // --------------------------------------------------------------------- runs

  /** The states an execution passes through. */
  ghost predicate Execution(h: seq<System>, es: seq<Event>)
    decreases |es|
  {
    && |h| == |es| + 1
    && if es == [] then h[0] == Start
       else
         var n := |es| - 1;
         Execution(h[..n + 1], es[..n]) && SysOk(h[n]) && Enabled(h[n], es[n]) && h[n + 1] == Apply(h[n], es[n])
  }

  lemma StartOk()
    ensures SysOk(Start)
  {}

  /** Every reachable state is sound. */
  lemma {:induction false} Sound(h: seq<System>, es: seq<Event>, i: nat)
    requires Execution(h, es) && i < |h|
    ensures SysOk(h[i])
    decreases |es|
  {
    if es == [] {
      StartOk();
    } else {
      var n := |es| - 1;
      if i <= n {
        Sound(h[..n + 1], es[..n], i);
      } else {
        StepKeeps(h[n], es[n]);
      }
    }
  }

  lemma {:induction false} NothingUndone(h: seq<System>, es: seq<Event>, i: nat, j: nat)
    requires Execution(h, es) && i <= j < |h|
    ensures Later(h[i], h[j])
    decreases |es|
  {
    if i == j {
      LaterReflexive(h[i]);
    } else {
      var n := |es| - 1;
      if j <= n {
        NothingUndone(h[..n + 1], es[..n], i, j);
      } else {
        NothingUndone(h[..n + 1], es[..n], i, n);
        StepKeeps(h[n], es[n]);
        LaterTransitive(h[i], h[n], h[j]);
      }
    }
  }

  /** Every step of an execution is an enabled event applied to a sound state. */
  lemma {:induction false} StepAt(h: seq<System>, es: seq<Event>, n: nat)
    requires Execution(h, es) && n < |es|
    ensures SysOk(h[n]) && Enabled(h[n], es[n]) && h[n + 1] == Apply(h[n], es[n])
    decreases |es|
  {
    if n < |es| - 1 { StepAt(h[..|es|], es[..|es| - 1], n); }
  }

  // ----------------------------------------------------------------- theorems

  /** Of all the RPCs ever issued for a message, by any broker, at most the last was not definitely rejected. */
  lemma AtMostOneUnrejected(s: System, m: Name, i: nat, j: nat)
    requires SysOk(s) && m in s.tries && i < j < |s.tries[m]| && s.tries[m][i].sent
    ensures s.tries[m][i].rejected
  {
    assert MessageOk(s.clients, s.ledger.messages[m], s.ledger.deliveries[m], s.tries[m]);
  }

  /** A waiting message has no RPC outstanding or of unknown effect. */
  lemma WaitingIsSafe(s: System, m: Name, i: nat)
    requires SysOk(s) && m in s.tries && i < |s.tries[m]| && Waiting(s.ledger.deliveries[m]) && s.tries[m][i].sent
    ensures s.tries[m][i].rejected
  {
    assert MessageOk(s.clients, s.ledger.messages[m], s.ledger.deliveries[m], s.tries[m]);
  }

  /** Successive tries of one message are on different turns, hence by different clients. */
  lemma NeverTwiceInARow(s: System, m: Name, k: nat)
    requires SysOk(s) && m in s.tries && 0 < k < |s.tries[m]|
    ensures s.tries[m][k - 1].turn != s.tries[m][k].turn && s.tries[m][k - 1].client != s.tries[m][k].client
  {
    var l, msg, d := s.tries[m], s.ledger.messages[m], s.ledger.deliveries[m];
    assert MessageOk(s.clients, msg, d, l);
    assert Turned(l[k - 1], l[k]);
    assert TryOk(s.clients, msg, d, l[k - 1]) && TryOk(s.clients, msg, d, l[k]);
  }

  /** With a single client there is at most one try at all. */
  lemma OneClientOneTry(s: System, m: Name, c: Name)
    requires SysOk(s) && m in s.tries && forall k :: 0 <= k < |s.tries[m]| ==> s.tries[m][k].client == c
    ensures |s.tries[m]| <= 1
  {
    if |s.tries[m]| > 1 { NeverTwiceInARow(s, m, 1); }
  }

  /** An encouragement is only ever sent to the thread and turn it is bound to, and is never queued. */
  lemma EncouragementIsExact(s: System, m: Name, k: nat)
    requires SysOk(s) && m in s.tries && s.ledger.messages[m].binding.Some?
    ensures s.ledger.deliveries[m].state != Queued
    ensures k < |s.tries[m]| && s.tries[m][k].sent ==>
      s.ledger.messages[m].binding.value == Binding(s.tries[m][k].thread, s.tries[m][k].turn)
  {
    var l, msg, d := s.tries[m], s.ledger.messages[m], s.ledger.deliveries[m];
    assert MessageOk(s.clients, msg, d, l);
    if k < |l| { assert TryOk(s.clients, msg, d, l[k]); }
  }
}
