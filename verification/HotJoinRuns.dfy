/** What holds over whole executions of clients, brokers and the delivery ledger. */
module HotJoinRuns {
  import opened Wrappers
  import opened TurnTracking
  import opened Deliveries
  import opened HotJoin

  // ------------------------------------------------ after an unknown delivery

  /** Broker `b` has claimed `m` on a turn and not dispatched it yet. */
  predicate About(s: System, m: Name, b: Name) {
    b in s.brokers && s.brokers[b].pc.Holding? && s.brokers[b].pc.message == m && s.brokers[b].pc.turn.Some?
  }

  /** The event issues an RPC for `m`. */
  predicate Issues(s: System, e: Event, m: Name) {
    && e.Dispatch? && About(s, m, e.broker) && m in s.ledger.messages
    && var msg, k := s.ledger.messages[m], s.brokers[e.broker];
    msg.binding.Some? ==> msg.binding.value == Binding(k.thread, k.pc.turn.value)
  }

  /** The same tries, and the same ones of them sent. */
  predicate SameSent(a: seq<Try>, b: seq<Try>) { |a| == |b| && forall k :: 0 <= k < |a| ==> a[k].sent == b[k].sent }

  /** `m` has a row of its own and is neither waiting nor being routed. */
  predicate Shelved(s: System, m: Name) {
    m in s.ledger.messages && m in s.ledger.deliveries && m in s.tries && Closed(s.ledger.deliveries[m])
  }

  lemma TakeLeavesShelved(s: System, e: Event, m: Name)
    requires SysOk(s) && e.Take? && Enabled(s, e) && Shelved(s, m)
    ensures Apply(s, e).tries[m] == s.tries[m] && forall b :: About(Apply(s, e), m, b) ==> About(s, m, b)
  {
    assert e.pick != Some(m);
  }

  lemma DispatchOnShelved(s: System, e: Event, m: Name)
    requires SysOk(s) && e.Dispatch? && Enabled(s, e) && Shelved(s, m)
    ensures var t := Apply(s, e);
      && m in t.tries && (forall b :: About(t, m, b) ==> About(s, m, b))
      && (!Issues(s, e, m) ==> t.tries[m] == s.tries[m])
      && (Issues(s, e, m) ==>
           s.tries[m] != [] && !Last(s.tries, m).sent && t.tries == Mark(s.tries, m, Last(s.tries, m).(sent := true)))
  {
    assert HeldOk(s, e.broker, s.brokers[e.broker]);
  }

  lemma ReplyOnShelved(s: System, e: Event, m: Name)
    requires SysOk(s) && e.Reply? && Enabled(s, e) && Shelved(s, m)
    ensures var t := Apply(s, e); m in t.tries && SameSent(s.tries[m], t.tries[m]) && forall b :: About(t, m, b) ==>
      About(s, m, b)
  {
    assert HeldOk(s, e.broker, s.brokers[e.broker]);
  }

  /** One step on a shelved message: only a broker about to dispatch it can issue an RPC, and nobody becomes one. */
  lemma ShelvedStep(s: System, e: Event, m: Name)
    requires SysOk(s) && Enabled(s, e) && Shelved(s, m)
    ensures var t := Apply(s, e);
      && m in t.tries && (forall b :: About(t, m, b) ==> About(s, m, b))
      && (!Issues(s, e, m) ==> SameSent(s.tries[m], t.tries[m]))
      && (Issues(s, e, m) ==> s.tries[m] != [] && !Last(s.tries, m).sent && t.tries[m] != [] && Last(t.tries, m).sent)
  {
    if e.Take? {
      TakeLeavesShelved(s, e, m);
    } else if e.Dispatch? {
      DispatchOnShelved(s, e, m);
    } else if e.Reply? {
      ReplyOnShelved(s, e, m);
    }
  }

  /** A shelved message stays shelved, with the same tries. */
  lemma StaysShelved(h: seq<System>, es: seq<Event>, i: nat, j: nat, m: Name)
    requires Execution(h, es) && i <= j < |h| && Shelved(h[i], m)
    ensures Shelved(h[j], m) && TriesLater(h[i].tries[m], h[j].tries[m]) && |h[j].tries[m]| == |h[i].tries[m]|
  {
    NothingUndone(h, es, i, j);
  }

  lemma {:induction false} NobodyNew(h: seq<System>, es: seq<Event>, i: nat, j: nat, m: Name, b: Name)
    requires Execution(h, es) && i <= j < |h| && Shelved(h[i], m) && About(h[j], m, b)
    ensures About(h[i], m, b)
    decreases j
  {
    if i < j {
      StepAt(h, es, j - 1);
      StaysShelved(h, es, i, j - 1, m);
      ShelvedStep(h[j - 1], es[j - 1], m);
      NobodyNew(h, es, i, j - 1, m, b);
    }
  }

  lemma {:induction false} NothingIssued(h: seq<System>, es: seq<Event>, i: nat, j: nat, m: Name)
    requires Execution(h, es) && i <= j < |h| && Shelved(h[i], m)
    requires forall n :: i <= n < j ==> !Issues(h[n], es[n], m)
    ensures m in h[j].tries && SameSent(h[i].tries[m], h[j].tries[m])
    decreases j
  {
    if i < j {
      StepAt(h, es, j - 1);
      StaysShelved(h, es, i, j - 1, m);
      ShelvedStep(h[j - 1], es[j - 1], m);
      NothingIssued(h, es, i, j - 1, m);
    }
  }

  /** The issuing step is the one at which the last try becomes sent. */
  lemma IssueShows(h: seq<System>, es: seq<Event>, i: nat, n: nat, j: nat, m: Name)
    requires Execution(h, es) && i <= n < j < |h| && Shelved(h[i], m) && Issues(h[n], es[n], m)
    ensures m in h[n].tries && m in h[j].tries && h[i].tries[m] != [] && h[n].tries[m] != [] && h[j].tries[m] != []
    ensures !Last(h[i].tries, m).sent && !Last(h[n].tries, m).sent && Last(h[j].tries, m).sent
    ensures |h[i].tries[m]| == |h[n].tries[m]| == |h[j].tries[m]|
  {
    StepAt(h, es, n);
    StaysShelved(h, es, i, n, m);
    ShelvedStep(h[n], es[n], m);
    StaysShelved(h, es, n, n + 1, m);
    StaysShelved(h, es, n + 1, j, m);
    var k := |h[i].tries[m]| - 1;
    assert TryLater(h[i].tries[m][k], h[n].tries[m][k]) && TryLater(h[n + 1].tries[m][k], h[j].tries[m][k]);
  }

  /**
   * In any execution, once a message's delivery has become unknown no broker claims it again. An RPC is still issued
   * for it only by a broker that had claimed it on a turn before, and at most once; if that broker does not dispatch,
   * and in particular if there is none, nothing is sent.
   */
  lemma UnknownIsFinal(h: seq<System>, es: seq<Event>, i: nat, j: nat, m: Name)
    requires Execution(h, es) && i <= j < |h| && Shelved(h[i], m)
    ensures Shelved(h[j], m) && |h[j].tries[m]| == |h[i].tries[m]|
    ensures forall n :: i <= n < j && Issues(h[n], es[n], m) ==> About(h[i], m, es[n].broker)
    ensures forall n, k :: i <= n < j && i <= k < j && Issues(h[n], es[n], m) && Issues(h[k], es[k], m) ==> n == k
    ensures SameSent(h[i].tries[m], h[j].tries[m]) <==> forall n :: i <= n < j ==> !Issues(h[n], es[n], m)
  {
    StaysShelved(h, es, i, j, m);
    forall n | i <= n < j && Issues(h[n], es[n], m) ensures About(h[i], m, es[n].broker) {
      NobodyNew(h, es, i, n, m, es[n].broker);
    }
    forall n, k | i <= n < j && i <= k < j && Issues(h[n], es[n], m) && Issues(h[k], es[k], m) ensures n == k {
      AtMostOneIssue(h, es, i, n, k, m);
      AtMostOneIssue(h, es, i, k, n, m);
    }
    if n :| i <= n < j && Issues(h[n], es[n], m) {
      IssueShows(h, es, i, n, j, m);
    } else {
      NothingIssued(h, es, i, j, m);
    }
  }

  lemma AtMostOneIssue(h: seq<System>, es: seq<Event>, i: nat, n: nat, k: nat, m: Name)
    requires Execution(h, es) && i <= n < |es| && i <= k < |es| && Shelved(h[i], m) && Issues(h[n], es[n], m)
    requires Issues(h[k], es[k], m)
    ensures k <= n
  {
    if n < k {
      IssueShows(h, es, i, n, k, m);
      IssueShows(h, es, i, k, k + 1, m);
      assert false;
    }
  }

  /** After a lost answer the message is shelved and nobody holds it: no RPC is ever issued for it again. */
  lemma LostAnswerIsFinal(h: seq<System>, es: seq<Event>, i: nat, j: nat, m: Name)
    requires Execution(h, es) && i < j < |h| && es[i].Reply? && es[i].answer == Lost
    requires es[i].broker in h[i].brokers && h[i].brokers[es[i].broker].pc.Sent?
    requires h[i].brokers[es[i].broker].pc.message == m
    ensures Shelved(h[i + 1], m) && m in h[j].tries && SameSent(h[i + 1].tries[m], h[j].tries[m])
    ensures forall n :: i < n < j ==> !Issues(h[n], es[n], m)
  {
    StepAt(h, es, i);
    LostShelves(h[i], es[i], m);
    UnknownIsFinal(h, es, i + 1, j, m);
  }

  lemma LostShelves(s: System, e: Event, m: Name)
    requires SysOk(s) && e.Reply? && e.answer == Lost && Enabled(s, e) && s.brokers[e.broker].pc.message == m
    ensures Shelved(Apply(s, e), m) && forall b :: !About(Apply(s, e), m, b)
  {
    var k := s.brokers[e.broker];
    assert HeldOk(s, e.broker, k);
    assert MessageOk(s.clients, s.ledger.messages[m], s.ledger.deliveries[m], s.tries[m]);
    forall b ensures !About(Apply(s, e), m, b) {
      if b != e.broker && b in s.brokers && Holds(s.brokers[b], m) { assert BothHold(s, b, e.broker, m); }
    }
  }

  // ---------------------------------------------------------- client lifetimes

  predicate LaunchOn(e: Event, thread: Name) { e.Launch? && e.start.thread == thread }

  /** The client of the most recent broker launched on a thread. */
  function LastClient(past: seq<Event>, thread: Name): Option<Name> {
    if past == [] then None
    else if LaunchOn(past[|past| - 1], thread) then Some(past[|past| - 1].start.client)
    else LastClient(past[..|past| - 1], thread)
  }

  ghost predicate HasLaunched(past: seq<Event>, client: Name, thread: Name) {
    exists n :: 0 <= n < |past| && LaunchOn(past[n], thread) && past[n].start.client == client
  }

  /** A launch that keeps client lifetimes apart: for the client already serving the thread, or for a client new to
      it once every broker on the thread has stopped. */
  ghost predicate OrderlyLaunch(s: System, past: seq<Event>, k: Broker) {
    || LastClient(past, k.thread) == Some(k.client)
    || (!HasLaunched(past, k.client, k.thread) && forall b :: b in s.brokers && s.brokers[b].thread == k.thread ==>
         s.brokers[b].pc == Stopped)
  }

  ghost predicate Orderly(h: seq<System>, es: seq<Event>)
    requires |h| == |es| + 1
  {
    forall n :: 0 <= n < |es| && es[n].Launch? ==> OrderlyLaunch(h[n], es[..n], es[n].start)
  }

  /** A broker that has not stopped belongs to the client serving its thread. */
  ghost predicate ServedBy(past: seq<Event>, k: Broker) {
    HasLaunched(past, k.client, k.thread) && (k.pc != Stopped ==> LastClient(past, k.thread) == Some(k.client))
  }

  /** Each client tried once, and only the last try can be by the client serving the thread. */
  ghost predicate OncePerClient(past: seq<Event>, l: seq<Try>) {
    && (forall i, k :: 0 <= i < k < |l| ==> l[i].client != l[k].client)
    && (forall i :: 0 <= i < |l| ==> HasLaunched(past, l[i].client, l[i].thread))
    && (forall i :: 0 <= i < |l| - 1 ==> LastClient(past, l[i].thread) != Some(l[i].client))
  }

  ghost predicate InOrder(s: System, past: seq<Event>) {
    && (forall b {:trigger ServedBy(past, s.brokers[b])} :: b in s.brokers ==> ServedBy(past, s.brokers[b]))
    && (forall m {:trigger OncePerClient(past, s.tries[m])} :: m in s.tries ==> OncePerClient(past, s.tries[m]))
  }

  lemma PastGrows(past: seq<Event>, e: Event, client: Name, thread: Name)
    ensures LastClient(past + [e], thread) ==
      if LaunchOn(e, thread) then Some(e.start.client)
      else LastClient(past, thread)
    ensures HasLaunched(past, client, thread) ==> HasLaunched(past + [e], client, thread)
    ensures LaunchOn(e, thread) && e.start.client == client ==> HasLaunched(past + [e], client, thread)
  {
    var more := past + [e];
    assert more[..|past|] == past && more[|past|] == e;
    if HasLaunched(past, client, thread) {
      var n :| 0 <= n < |past| && LaunchOn(past[n], thread) && past[n].start.client == client;
      assert more[n] == past[n];
    }
  }

  predicate SameOwner(a: Try, b: Try) { a.client == b.client && a.thread == b.thread }

  predicate SameOwners(a: seq<Try>, b: seq<Try>) { |a| == |b| && forall k :: 0 <= k < |a| ==> SameOwner(a[k], b[k]) }

  /** A log that only changed its flags keeps its order, unless a launch brings back one of its clients. */
  lemma OwnersKeep(past: seq<Event>, e: Event, a: seq<Try>, b: seq<Try>)
    requires OncePerClient(past, a) && SameOwners(a, b)
    requires forall i :: 0 <= i < |a| - 1 && LaunchOn(e, a[i].thread) ==> e.start.client != a[i].client
    ensures OncePerClient(past + [e], b)
  {
    forall i | 0 <= i < |b|
      ensures HasLaunched(past + [e], b[i].client, b[i].thread)
      ensures i < |b| - 1 ==> LastClient(past + [e], b[i].thread) != Some(b[i].client)
    {
      assert SameOwner(a[i], b[i]);
      PastGrows(past, e, a[i].client, a[i].thread);
    }
    forall i, k | 0 <= i < k < |b| ensures b[i].client != b[k].client {
      assert SameOwner(a[i], b[i]) && SameOwner(a[k], b[k]);
    }
  }

  /** The try a claim adds, if it adds one for `m`. */
  predicate Adds(s: System, e: Event, m: Name) {
    && e.Take? && e.broker in s.brokers && e.pick == Some(m)
    && s.brokers[e.broker].pc.Looked? && s.brokers[e.broker].pc.seen.Some?
  }

  lemma TriesAfter(s: System, e: Event, m: Name)
    requires SysOk(s) && Enabled(s, e) && m in s.tries
    ensures m in Apply(s, e).tries
    ensures !Adds(s, e, m) ==> SameOwners(s.tries[m], Apply(s, e).tries[m])
    ensures Adds(s, e, m) ==> var k := s.brokers[e.broker];
      Apply(s, e).tries[m] == s.tries[m] + [Try(k.client, k.thread, k.pc.seen.value, false, false)]
  {
    if e.Dispatch? || e.Reply? { assert HeldOk(s, e.broker, s.brokers[e.broker]); }
  }

  /** A stopped broker stays stopped, and none changes its client or thread. */
  lemma BrokersAfter(s: System, e: Event, b: Name)
    requires SysOk(s) && Enabled(s, e) && b in Apply(s, e).brokers
    ensures b in s.brokers ==>
      var x, y := s.brokers[b], Apply(s, e).brokers[b];
      y.client == x.client && y.thread == x.thread && (x.pc == Stopped ==> y.pc == Stopped)
    ensures b !in s.brokers ==> e.Launch? && e.broker == b && Apply(s, e).brokers[b] == e.start
  {
    if e.Dispatch? || e.Reply? { assert HeldOk(s, e.broker, s.brokers[e.broker]); }
  }

  lemma ServedAfter(s: System, past: seq<Event>, e: Event, b: Name)
    requires SysOk(s) && Enabled(s, e) && InOrder(s, past) && (e.Launch? ==> OrderlyLaunch(s, past, e.start))
    requires b in Apply(s, e).brokers
    ensures ServedBy(past + [e], Apply(s, e).brokers[b])
  {
    var y := Apply(s, e).brokers[b];
    BrokersAfter(s, e, b);
    PastGrows(past, e, y.client, y.thread);
    if b in s.brokers { assert ServedBy(past, s.brokers[b]); }
  }

  /** The client that now claims has not tried this message before. */
  lemma NewToMessage(s: System, past: seq<Event>, e: Event, m: Name, i: nat)
    requires SysOk(s) && Enabled(s, e) && InOrder(s, past) && m in s.tries && Adds(s, e, m) && i < |s.tries[m]|
    ensures s.tries[m][i].client != s.brokers[e.broker].client && s.tries[m][i].thread == s.brokers[e.broker].thread
  {
    var k, l, msg, d := s.brokers[e.broker], s.tries[m], s.ledger.messages[m], s.ledger.deliveries[m];
    assert MessageOk(s.clients, msg, d, l) && HeldOk(s, e.broker, k) && ServedBy(past, k) && OncePerClient(past, l);
    assert TryOk(s.clients, msg, d, l[i]);
    assert !Expired(msg, d, ClaimOf(e.broker, k, e.lease), e.now);
  }

  lemma ClaimKeepsOnce(s: System, past: seq<Event>, e: Event, m: Name)
    requires SysOk(s) && Enabled(s, e) && InOrder(s, past) && m in s.tries && Adds(s, e, m)
    ensures m in Apply(s, e).tries && OncePerClient(past + [e], Apply(s, e).tries[m])
  {
    TriesAfter(s, e, m);
    var k, l, n := s.brokers[e.broker], s.tries[m], |s.tries[m]|;
    var more := Apply(s, e).tries[m];
    assert OncePerClient(past, l) && ServedBy(past, k);
    forall i | 0 <= i < |more|
      ensures HasLaunched(past + [e], more[i].client, more[i].thread)
      ensures i < n ==> more[i].client != k.client && LastClient(past + [e], more[i].thread) != Some(more[i].client)
    {
      if i < n { NewToMessage(s, past, e, m, i); }
      PastGrows(past, e, more[i].client, more[i].thread);
    }
  }

  /** A launch of a client new to the thread: it has tried nothing there. */
  lemma OtherKeepsOnce(s: System, past: seq<Event>, e: Event, m: Name)
    requires SysOk(s) && Enabled(s, e) && InOrder(s, past) && (e.Launch? ==> OrderlyLaunch(s, past, e.start))
    requires m in s.tries && !Adds(s, e, m)
    ensures m in Apply(s, e).tries && OncePerClient(past + [e], Apply(s, e).tries[m])
  {
    TriesAfter(s, e, m);
    assert OncePerClient(past, s.tries[m]);
    OwnersKeep(past, e, s.tries[m], Apply(s, e).tries[m]);
  }

  lemma NewLogsAreEmpty(s: System, e: Event)
    requires SysOk(s) && Enabled(s, e)
    ensures forall m :: m in Apply(s, e).tries && m !in s.tries ==> Apply(s, e).tries[m] == []
  {
    if e.Dispatch? || e.Reply? { assert HeldOk(s, e.broker, s.brokers[e.broker]); }
  }

  lemma OrderlyStep(s: System, past: seq<Event>, e: Event)
    requires SysOk(s) && Enabled(s, e) && InOrder(s, past) && (e.Launch? ==> OrderlyLaunch(s, past, e.start))
    ensures InOrder(Apply(s, e), past + [e])
  {
    var t := Apply(s, e);
    NewLogsAreEmpty(s, e);
    forall b | b in t.brokers ensures ServedBy(past + [e], t.brokers[b]) { ServedAfter(s, past, e, b); }
    forall m | m in t.tries ensures OncePerClient(past + [e], t.tries[m]) {
      if m in s.tries {
        if Adds(s, e, m) { ClaimKeepsOnce(s, past, e, m); } else { OtherKeepsOnce(s, past, e, m); }
      }
    }
  }

  lemma {:induction false} OrderlyRun(h: seq<System>, es: seq<Event>)
    requires Execution(h, es) && Orderly(h, es)
    ensures InOrder(h[|es|], es)
    decreases |es|
  {
    if es != [] {
      var n := |es| - 1;
      var g, fs := h[..n + 1], es[..n];
      forall i | 0 <= i < |fs| && fs[i].Launch? ensures OrderlyLaunch(g[i], fs[..i], fs[i].start) {
        assert OrderlyLaunch(h[i], es[..i], es[i].start) && fs[..i] == es[..i];
      }
      OrderlyRun(g, fs);
      OrderlyStep(h[n], fs, es[n]);
      assert fs + [es[n]] == es;
    }
  }

  /** Then two brokers on one thread that have not stopped belong to the same client. */
  lemma OneClientServes(h: seq<System>, es: seq<Event>, a: Name, b: Name)
    requires Execution(h, es) && Orderly(h, es) && a in h[|es|].brokers && b in h[|es|].brokers
    requires h[|es|].brokers[a].thread == h[|es|].brokers[b].thread
    requires h[|es|].brokers[a].pc != Stopped && h[|es|].brokers[b].pc != Stopped
    ensures h[|es|].brokers[a].client == h[|es|].brokers[b].client
  {
    OrderlyRun(h, es);
    assert ServedBy(es, h[|es|].brokers[a]) && ServedBy(es, h[|es|].brokers[b]);
  }

  /** If every launch keeps client lifetimes on a thread apart, each client claims a message for dispatch, and issues
      its RPC, at most once. */
  lemma AtMostOncePerLifetime(h: seq<System>, es: seq<Event>, m: Name, i: nat, k: nat)
    requires Execution(h, es) && Orderly(h, es) && m in h[|es|].tries && i < k < |h[|es|].tries[m]|
    ensures h[|es|].tries[m][i].client != h[|es|].tries[m][k].client
  {
    OrderlyRun(h, es);
    assert OncePerClient(es, h[|es|].tries[m]);
  }

  // ------------------------------------------------------ overlapping lifetimes

  ghost predicate Reachable(t: System) { exists h, es :: Execution(h, es) && h[|es|] == t }

  lemma ReachableStart()
    ensures Reachable(Start)
  {
    assert Execution([Start], []);
  }

  lemma ReachableIsSound(s: System)
    requires Reachable(s)
    ensures SysOk(s)
  {
    var h, es :| Execution(h, es) && h[|es|] == s;
    Sound(h, es, |es|);
  }

  lemma ExecutionExtends(h: seq<System>, es: seq<Event>, e: Event, t: System)
    requires Execution(h, es) && SysOk(h[|es|]) && Enabled(h[|es|], e) && t == Apply(h[|es|], e)
    ensures Execution(h + [t], es + [e])
  {
    assert (h + [t])[..|es| + 1] == h && (es + [e])[..|es|] == es;
  }

  lemma ReachableStep(s: System, e: Event) returns (t: System)
    requires Reachable(s) && (SysOk(s) ==> Enabled(s, e))
    ensures SysOk(s) && t == Apply(s, e) && Reachable(t)
  {
    ReachableIsSound(s);
    var h, es :| Execution(h, es) && h[|es|] == s;
    t := Apply(s, e);
    ExecutionExtends(h, es, e, t);
    assert (h + [t])[|es + [e]|] == t;
  }

  /** An idle broker of this target and thread whose client sees `turn` active. */
  predicate Sees(s: System, b: Name, target: Name, thread: Name, turn: Name) {
    && b in s.brokers && s.brokers[b].pc == Idle && s.brokers[b].target == target && s.brokers[b].thread == thread
    && s.brokers[b].client in s.clients && thread in s.clients[s.brokers[b].client].active
    && s.clients[s.brokers[b].client].active[thread] == turn
  }

  /** A message the thread may take, queueable and unbound, that no waiting message of its target precedes. */
  ghost predicate Next(s: System, m: Name, target: Name, thread: Name) {
    && m in s.ledger.messages && m in s.ledger.deliveries && m in s.tries
    && var msg, d := s.ledger.messages[m], s.ledger.deliveries[m];
    && Requeues(msg) && msg.binding.None? && msg.target == target && Waiting(d)
    && (d.thread.Some? ==> d.thread == Some(thread))
    && forall k ::
         && k in s.ledger.messages && k in s.ledger.deliveries && Waiting(s.ledger.deliveries[k])
         && s.ledger.messages[k].target == target
         ==> msg.order <= s.ledger.messages[k].order
  }

  /** `b` may claim `m`: it is next, and was not refused on the turn `b` sees. */
  ghost predicate Poised(s: System, m: Name, b: Name, target: Name, thread: Name, turn: Name) {
    && Sees(s, b, target, thread, turn) && Next(s, m, target, thread)
    && (s.ledger.deliveries[m].state == Queued ==> s.ledger.deliveries[m].turn != Some(turn))
  }

  /** Nothing but `m` has come to wait. */
  ghost predicate QuietElsewhere(s: Ledger, t: Ledger, m: Name) {
    && t.messages == s.messages && t.deliveries.Keys == s.deliveries.Keys
    && forall k :: k in s.deliveries && k != m && Waiting(t.deliveries[k]) ==> Waiting(s.deliveries[k])
  }

  lemma LookStep(s: System, b: Name, target: Name, thread: Name, turn: Name) returns (t: System)
    requires Reachable(s) && Sees(s, b, target, thread, turn)
    ensures Reachable(t) && t == WithPc(s, b, Looked(Some(turn)))
  {
    t := ReachableStep(s, Look(b));
  }

  ghost function LapseAll(l: Ledger, c: Claim, now: int): (next: Ledger)
    requires l.deliveries.Keys == l.messages.Keys
    ensures Lapsed(l, c, now, next)
  {
    l.(deliveries := map m | m in l.deliveries ::
         if Expired(l.messages[m], l.deliveries[m], c, now) then Lapse(l.deliveries[m]) else l.deliveries[m])
  }

  lemma LapseIsQuiet(l: Ledger, c: Claim, now: int, next: Ledger, m: Name)
    requires l.deliveries.Keys == l.messages.Keys && Lapsed(l, c, now, next) && m in l.deliveries
    requires Waiting(l.deliveries[m])
    ensures next.deliveries[m] == l.deliveries[m]
    ensures forall k :: k in l.deliveries && Waiting(next.deliveries[k]) ==> Waiting(l.deliveries[k])
  {}

  /** A claim on a turn, held by `b`. */
  ghost predicate Armed(s: System, m: Name, b: Name, thread: Name, turn: Name, pc: Pc, l: seq<Try>) {
    && b in s.brokers && s.brokers[b].pc == pc && s.brokers[b].thread == thread
    && m in s.ledger.messages && m in s.ledger.deliveries && m in s.tries && s.tries[m] == l
    && Requeues(s.ledger.messages[m]) && s.ledger.messages[m].binding.None?
    && var d := s.ledger.deliveries[m];
    && d.state == Routing && d.owner == Some(b) && d.thread == Some(thread) && d.turn == Some(turn)
  }

  lemma KeysAgree(s: System)
    requires Reachable(s)
    ensures s.ledger.deliveries.Keys == s.ledger.messages.Keys
  {
    ReachableIsSound(s);
  }

  /** The broker's claim finds `m`. */
  lemma PickIsNext(l: Ledger, c: Claim, now: int, m: Name) returns (lapsed: Ledger)
    requires l.deliveries.Keys == l.messages.Keys && m in l.messages && Claimable(l.messages[m], l.deliveries[m], c)
    requires forall k :: k in l.messages && Waiting(l.deliveries[k]) && l.messages[k].target == c.target ==>
      l.messages[m].order <= l.messages[k].order
    ensures Lapsed(l, c, now, lapsed) && IsOldest(lapsed, c, m) && lapsed.deliveries[m] == l.deliveries[m]
    ensures QuietElsewhere(l, lapsed, m)
  {
    lapsed := LapseAll(l, c, now);
    LapseIsQuiet(l, c, now, lapsed, m);
  }

  lemma TakenIs(s: System, b: Name, lease: int, now: int, lapsed: Ledger, m: Name)
    requires SysOk(s) && Enabled(s, Take(b, lease, now, lapsed, Some(m)))
    ensures m in lapsed.deliveries && m in s.tries
    ensures var claim := ClaimOf(b, s.brokers[b], lease);
      Apply(s, Take(b, lease, now, lapsed, Some(m))) == Claimed(s.(ledger := lapsed), b, claim, now, m)
  {}

  lemma ClaimArms(p: System, m: Name, b: Name, c: Claim, now: int)
    requires b in p.brokers && m in p.ledger.messages && m in p.ledger.deliveries && m in p.tries && c.owner == b
    requires c.turn.Some?
    requires c.thread == p.brokers[b].thread && Requeues(p.ledger.messages[m]) && p.ledger.messages[m].binding.None?
    requires p.ledger.deliveries[m].thread.Some? ==> p.ledger.deliveries[m].thread == Some(c.thread)
    ensures var t := Claimed(p, b, c, now, m);
      && t.clients == p.clients && QuietElsewhere(p.ledger, t.ledger, m)
      && t.brokers == p.brokers[b := p.brokers[b].(pc := Holding(m, c.turn))]
      && Armed(t, m, b, c.thread, c.turn.value, Holding(m, c.turn),
               p.tries[m] + [Try(p.brokers[b].client, c.thread, c.turn.value, false, false)])
  {}

  lemma TakeStep(s: System, m: Name, b: Name, target: Name, thread: Name, turn: Name, looked: System, now: int)
    returns (t: System)
    requires Poised(s, m, b, target, thread, turn) && Reachable(looked) && looked == WithPc(s, b, Looked(Some(turn)))
    ensures Reachable(t) && t.clients == s.clients && QuietElsewhere(s.ledger, t.ledger, m)
    ensures t.brokers == s.brokers[b := s.brokers[b].(pc := Holding(m, Some(turn)))]
    ensures Armed(t, m, b, thread, turn, Holding(m, Some(turn)),
                  s.tries[m] + [Try(s.brokers[b].client, thread, turn, false, false)])
  {
    var c := ClaimOf(b, looked.brokers[b], 30);
    KeysAgree(looked);
    var lapsed := PickIsNext(s.ledger, c, now, m);
    ClaimArms(looked.(ledger := lapsed), m, b, c, now);
    t := TakePicked(looked, m, b, lapsed, now);
    ghost var holding := Holding(m, Some(turn));
    assert looked.brokers[b := looked.brokers[b].(pc := holding)] == s.brokers[b := s.brokers[b].(pc := holding)];
  }

  lemma TakePicked(s: System, m: Name, b: Name, lapsed: Ledger, now: int) returns (t: System)
    requires Reachable(s) && b in s.brokers && s.brokers[b].pc.Looked? && m in s.tries
    requires var c := ClaimOf(b, s.brokers[b], 30); Lapsed(s.ledger, c, now, lapsed) && IsOldest(lapsed, c, m)
    ensures Reachable(t) && t == Claimed(s.(ledger := lapsed), b, ClaimOf(b, s.brokers[b], 30), now, m)
  {
    t := ReachableStep(s, Take(b, 30, now, lapsed, Some(m)));
    TakenIs(s, b, 30, now, lapsed, m);
  }

  lemma SendStep(s: System, m: Name, b: Name, thread: Name, turn: Name, l: seq<Try>) returns (t: System)
    requires Reachable(s) && Armed(s, m, b, thread, turn, Holding(m, Some(turn)), l) && l != []
    ensures Reachable(t) && t.clients == s.clients && t.ledger == s.ledger
    ensures t.brokers == s.brokers[b := s.brokers[b].(pc := Sent(m, turn))]
    ensures Armed(t, m, b, thread, turn, Sent(m, turn), l[|l| - 1 := l[|l| - 1].(sent := true)])
  {
    t := ReachableStep(s, Dispatch(b));
  }

  predicate Rested(d: Delivery, thread: Name, turn: Name) {
    d.state == Queued && d.turn == Some(turn) && d.thread == Some(thread)
  }

  lemma RejectStep(s: System, m: Name, b: Name, thread: Name, turn: Name, l: seq<Try>) returns (t: System)
    requires Reachable(s) && Armed(s, m, b, thread, turn, Sent(m, turn), l) && l != []
    ensures Reachable(t) && t.clients == s.clients && QuietElsewhere(s.ledger, t.ledger, m)
    ensures t.brokers == s.brokers[b := s.brokers[b].(pc := Idle)]
    ensures m in t.ledger.deliveries && Rested(t.ledger.deliveries[m], thread, turn)
    ensures m in t.tries && t.tries[m] == l[|l| - 1 := l[|l| - 1].(rejected := true)]
  {
    t := ReachableStep(s, Reply(b, Rejected));
  }

  lemma SendAndReject(s: System, m: Name, b: Name, thread: Name, turn: Name, l: seq<Try>, x: Try) returns (t: System)
    requires Reachable(s) && Armed(s, m, b, thread, turn, Holding(m, Some(turn)), l + [x])
    ensures Reachable(t) && t.clients == s.clients && QuietElsewhere(s.ledger, t.ledger, m)
    ensures t.brokers == s.brokers[b := s.brokers[b].(pc := Sent(m, turn))][b := s.brokers[b].(pc := Idle)]
    ensures m in t.ledger.deliveries && Rested(t.ledger.deliveries[m], thread, turn)
    ensures m in t.tries && t.tries[m] == l + [x.(sent := true, rejected := true)]
  {
    var n := |l|;
    var sent := SendStep(s, m, b, thread, turn, l + [x]);
    t := RejectStep(sent, m, b, thread, turn, (l + [x])[n := x.(sent := true)]);
  }

  lemma Restored(brokers: map<Name, Broker>, b: Name, x: Broker, y: Broker)
    requires b in brokers
    ensures brokers[b := x][b := y][b := brokers[b]] == brokers
  {}

  /** One round of a broker's loop whose RPC is rejected: the message waits again, for another turn. */
  lemma RejectedRound(s: System, m: Name, b: Name, target: Name, thread: Name, turn: Name, now: int) returns (t: System)
    requires Reachable(s) && Poised(s, m, b, target, thread, turn)
    ensures Reachable(t) && t.clients == s.clients && t.brokers == s.brokers && Next(t, m, target, thread)
    ensures Rested(t.ledger.deliveries[m], thread, turn)
    ensures t.tries[m] == s.tries[m] + [Try(s.brokers[b].client, thread, turn, true, true)]
  {
    var k := s.brokers[b];
    var looked := LookStep(s, b, target, thread, turn);
    var taken := TakeStep(s, m, b, target, thread, turn, looked, now);
    t := SendAndReject(taken, m, b, thread, turn, s.tries[m], Try(k.client, thread, turn, false, false));
    Restored(s.brokers, b, k.(pc := Holding(m, Some(turn))), k.(pc := Sent(m, turn)));
    StillNext(s, taken, t, m, target, thread);
  }

  lemma StillNext(s: System, r: System, t: System, m: Name, target: Name, thread: Name)
    requires Next(s, m, target, thread) && QuietElsewhere(s.ledger, r.ledger, m)
    requires QuietElsewhere(r.ledger, t.ledger, m)
    requires m in t.tries && m in t.ledger.deliveries && Waiting(t.ledger.deliveries[m])
    requires t.ledger.deliveries[m].thread == Some(thread)
    ensures Next(t, m, target, thread)
  {}

  /**
   * Whenever two idle brokers of one target and thread see different turns active, their clients can take turns: the
   * next message is sent by the first, the second and the first again, each time definitely rejected.
   */
  lemma OverlapSendsTwice(s: System, m: Name, a: Name, b: Name, target: Name, thread: Name, u: Name, v: Name, now: int)
    returns (t: System)
    requires Reachable(s) && Poised(s, m, a, target, thread, u) && Sees(s, b, target, thread, v) && u != v
    ensures Reachable(t) && m in t.tries
    ensures
      var x := Try(s.brokers[a].client, thread, u, true, true);
      var y := Try(s.brokers[b].client, thread, v, true, true);
      t.tries[m] == s.tries[m] + [x] + [y] + [x]
  {
    t := RejectedRound(s, m, a, target, thread, u, now);
    t := RejectedRound(t, m, b, target, thread, v, now);
    t := RejectedRound(t, m, a, target, thread, u, now);
  }

  lemma ConnectStep(s: System, c: Name) returns (t: System)
    requires Reachable(s) && c !in s.clients
    ensures Reachable(t) && t == s.(clients := s.clients[c := NoTurns])
  {
    t := ReachableStep(s, Connect(c));
  }

  lemma StartTurnStep(s: System, c: Name, i: Identity) returns (t: System)
    requires Reachable(s) && c in s.clients && s.clients[c] == NoTurns
    ensures Reachable(t) && t == s.(clients := s.clients[c := Started(NoTurns, i)])
  {
    t := ReachableStep(s, Notify(c, TurnStarted(i)));
  }

  lemma TwoClients() returns (s: System)
    ensures Reachable(s) && s.brokers == map[] && s.ledger == Start.ledger && s.tries == map[]
    ensures 1 in s.clients && s.clients[1] == Started(NoTurns, Identity(7, 11))
    ensures 2 in s.clients && s.clients[2] == Started(NoTurns, Identity(7, 12))
  {
    ReachableStart();
    s := ConnectStep(Start, 1);
    s := ConnectStep(s, 2);
    s := StartTurnStep(s, 1, Identity(7, 11));
    s := StartTurnStep(s, 2, Identity(7, 12));
  }

  /** Two clients on one thread, each seeing its own turn active, and an idle broker for each. */
  lemma OverlapIsReachable() returns (s: System)
    ensures Reachable(s) && Poised(s, 1, 1, 5, 7, 11) && Sees(s, 2, 5, 7, 12)
    ensures s.brokers[1].client == 1 && s.brokers[2].client == 2 && s.tries[1] == []
  {
    s := TwoClients();
    s := ReachableStep(s, Launch(1, Broker(1, 5, 7, Idle)));
    s := ReachableStep(s, Launch(2, Broker(2, 5, 7, Idle)));
    s := ReachableStep(s, Enqueue(1, Message(5, Text, Queue, None, 0, 1, 1)));
  }

  /** An execution in which one client sends a message twice. */
  lemma InterleavedLifetimes() returns (s: System)
    ensures Reachable(s) && 1 in s.tries && |s.tries[1]| == 3
    ensures s.tries[1][0] == s.tries[1][2] && s.tries[1][0].client == 1 && s.tries[1][1].client == 2
    ensures s.tries[1][0].sent
  {
    s := OverlapIsReachable();
    s := OverlapSendsTwice(s, 1, 1, 2, 5, 7, 11, 12, 0);
  }

  /**
   * An execution in which an RPC is issued for a message whose delivery is already recorded as unknown: a
   * reconciliation settles the row while a broker sits between its claim and its dispatch.
   */
  lemma DispatchedWhileUnknown() returns (s: System, t: System)
    ensures Reachable(s) && 1 in s.ledger.deliveries && s.ledger.deliveries[1].state == DeliveryUnknown && 1 in s.tries
    ensures s.tries[1] == [Try(1, 7, 11, false, false)]
    ensures SysOk(s) && Enabled(s, Dispatch(1)) && Issues(s, Dispatch(1), 1) && t == Apply(s, Dispatch(1))
    ensures Reachable(t)
    ensures 1 in t.tries && t.tries[1] == [Try(1, 7, 11, true, false)] && t.ledger == s.ledger
  {
    var r := OverlapIsReachable();
    var looked := LookStep(r, 1, 5, 7, 11);
    var taken := TakeStep(r, 1, 1, 5, 7, 11, looked, 0);
    s := ReachableStep(taken, Settle(1, Outcome(DeliveryUnknown, Some(7), Some(11), Some(1), Routing)));
    t := ReachableStep(s, Dispatch(1));
  }
}
