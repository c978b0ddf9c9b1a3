/** The paid-turn ledger: intents, their terminal receipts and the owner's receipts. */
module PaidIntents {
  import opened Wrappers

  // ------------------------------------------------------------------- tables

  datatype IntentState = Prepared | Dispatching | Started | DeliveryUnknown | Completed | Failed

  /** What an intent is created for; `slot` is absent outside coordination. */
  datatype Request = Request(target: Name, thread: Name, prompt: Name, settings: Name, slot: Option<Name>)

  datatype Intent = Intent(request: Request, state: IntentState, turn: Option<Name>, status: Option<Name>)

  datatype Action = Abandoned | Cancelled

  /** The adapter's return code and the name of what it means. */
  datatype Verdict = Verdict(rc: int, disposition: string)

  datatype Audit = Audit(client: Name, payload: Name)

  datatype ThreadEvent =
    | Retired(target: Name, thread: Name, client: Name)
    | Mapped(target: Name, thread: Name)
    | Removed(target: Name, thread: Name)

  datatype Receipt =
    Receipt(client: Name, request: Request, turn: Name, status: Name, verdict: Verdict, payload: Name, retirement: nat)

  datatype OperatorEvent =
    OperatorEvent(client: Name, action: Action, target: Name, thread: Name, prior: IntentState)

  datatype OperatorReceipt =
    OperatorReceipt(client: Name, request: Request, turn: Option<Name>, action: Action, prior: IntentState,
                    status: Name, event: nat)

  /** Audits of attempts and final audits share a table; they are told apart by their kind and kept apart here. */
  datatype Ledger =
    Ledger(intents: map<Name, Intent>, threads: map<Name, Name>, attempts: seq<Audit>, finals: seq<Audit>,
           events: seq<ThreadEvent>, receipts: seq<Receipt>,
           operatorEvents: seq<OperatorEvent>, operatorReceipts: seq<OperatorReceipt>)

  const EMPTY := Ledger(map[], map[], [], [], [], [], [], [])

  predicate Terminal(s: IntentState) { s == Completed || s == Failed }

  // ---------------------------------------------------------------- invariant

  ghost predicate OneFinal(l: Ledger, c: Name, i: int) {
    && 0 <= i < |l.finals| && l.finals[i].client == c
    && forall j :: 0 <= j < |l.finals| && l.finals[j].client == c ==> j == i
  }

  ghost predicate NoFinal(l: Ledger, c: Name) { forall j :: 0 <= j < |l.finals| ==> l.finals[j].client != c }

  predicate Retires(e: ThreadEvent, c: Name) { e.Retired? && e.client == c }

  ghost predicate OneRetirement(l: Ledger, c: Name, i: int) {
    && 0 <= i < |l.events| && Retires(l.events[i], c)
    && forall j :: 0 <= j < |l.events| && Retires(l.events[j], c) ==> j == i
  }

  ghost predicate NoRetirement(l: Ledger, c: Name) { forall j :: 0 <= j < |l.events| ==> !Retires(l.events[j], c) }

  ghost predicate OneReceipt(l: Ledger, c: Name, i: int) {
    && 0 <= i < |l.receipts| && l.receipts[i].client == c
    && forall j :: 0 <= j < |l.receipts| && l.receipts[j].client == c ==> j == i
  }

  ghost predicate NoReceipt(l: Ledger, c: Name) { forall j :: 0 <= j < |l.receipts| ==> l.receipts[j].client != c }

  ghost predicate OneOperator(l: Ledger, c: Name, i: int) {
    && 0 <= i < |l.operatorReceipts| && l.operatorReceipts[i].client == c
    && forall j :: 0 <= j < |l.operatorReceipts| && l.operatorReceipts[j].client == c ==> j == i
  }

  ghost predicate NoOperator(l: Ledger, c: Name) {
    forall j :: 0 <= j < |l.operatorReceipts| ==> l.operatorReceipts[j].client != c
  }

  /** A completed turn's one receipt, one final audit and one retirement, all about this intent. */
  ghost predicate ReceiptAgrees(l: Ledger, c: Name, n: Intent, r: Receipt) {
    && r.client == c && r.request == n.request && n.turn == Some(r.turn) && n.status == Some(r.status)
    && r.retirement < |l.events| && l.events[r.retirement] == Retired(n.request.target, n.request.thread, c)
    && OneRetirement(l, c, r.retirement)
    && exists i :: OneFinal(l, c, i) && l.finals[i].payload == r.payload
  }

  /** A failed turn's one operator receipt and the event it cites, both about this intent. */
  ghost predicate OperatorAgrees(l: Ledger, c: Name, n: Intent, r: OperatorReceipt) {
    && r.client == c && r.request == n.request && r.turn == n.turn && n.status == Some(r.status)
    && r.event < |l.operatorEvents|
    && l.operatorEvents[r.event] == OperatorEvent(c, r.action, n.request.target, n.request.thread, r.prior)
    && (r.action == Cancelled <==> r.prior == Prepared) && !Terminal(r.prior)
  }

  ghost predicate HasReceipt(l: Ledger, c: Name, n: Intent) {
    exists i :: OneReceipt(l, c, i) && ReceiptAgrees(l, c, n, l.receipts[i])
  }

  ghost predicate HasOperator(l: Ledger, c: Name, n: Intent) {
    exists i :: OneOperator(l, c, i) && OperatorAgrees(l, c, n, l.operatorReceipts[i])
  }

  ghost predicate NothingTerminal(l: Ledger, c: Name) { NoReceipt(l, c) && NoFinal(l, c) && NoRetirement(l, c) }

  /** The receipts of one intent fit its state. */
  ghost predicate IntentOk(l: Ledger, c: Name, n: Intent) {
    if n.request.slot.None? then
      && NoReceipt(l, c) && NoRetirement(l, c) && NoOperator(l, c)
      && (n.state != Completed ==> NoFinal(l, c))
    else if n.state == Completed then HasReceipt(l, c, n) && NoOperator(l, c)
    else if n.state == Failed then HasOperator(l, c, n) && NothingTerminal(l, c)
    else NothingTerminal(l, c) && NoOperator(l, c)
  }

  predicate Clash(l: Ledger, a: Name, b: Name) {
    && a in l.intents && b in l.intents
    && (|| (&& l.intents[a].request.target == l.intents[b].request.target
            && !Terminal(l.intents[a].state) && !Terminal(l.intents[b].state))
        || (l.intents[a].request.slot.Some? && l.intents[a].request.slot == l.intents[b].request.slot))
  }

  /** One unfinished intent per target, one intent per slot, receipts exactly as the states say. */
  ghost predicate Inv(l: Ledger) {
    && (forall a, b {:trigger Clash(l, a, b)} :: Clash(l, a, b) ==> a == b)
    && (forall c {:trigger IntentOk(l, c, l.intents[c])} :: c in l.intents ==> IntentOk(l, c, l.intents[c]))
    && Distinct(l.attempts)
    && (forall j :: 0 <= j < |l.attempts| ==> l.attempts[j].client in l.intents)
    && (forall j :: 0 <= j < |l.finals| ==> l.finals[j].client in l.intents)
    && (forall j :: 0 <= j < |l.receipts| ==> l.receipts[j].client in l.intents)
    && (forall j :: 0 <= j < |l.operatorReceipts| ==> l.operatorReceipts[j].client in l.intents)
    && (forall j :: 0 <= j < |l.events| && l.events[j].Retired? ==> l.events[j].client in l.intents)
  }

  predicate Abandonment(e: OperatorEvent, target: Name, thread: Name) {
    e.action == Abandoned && e.target == target && e.thread == thread
  }

  ghost predicate Abandons(l: Ledger, target: Name, thread: Name) {
    exists j ::
      0 <= j < |l.operatorEvents| && Abandonment(l.operatorEvents[j], target, thread)
  }

  /** Terminal is for good, for a slot's intent to the last field; no intent appears on an abandoned thread; tables
      only grow. */
  ghost predicate Later(a: Ledger, b: Ledger) {
    && (forall c :: c in a.intents ==> c in b.intents && IntentLater(a.intents[c], b.intents[c]))
    && (forall c :: c in b.intents && c !in a.intents ==>
         !Abandons(a, b.intents[c].request.target, b.intents[c].request.thread))
    && a.attempts <= b.attempts && a.finals <= b.finals && a.events <= b.events && a.receipts <= b.receipts
    && a.operatorEvents <= b.operatorEvents && a.operatorReceipts <= b.operatorReceipts
  }

  predicate IntentLater(a: Intent, b: Intent) {
    a.request == b.request && (Terminal(a.state) ==> b.state == a.state && (a.request.slot.Some? ==> b == a))
  }

  // ------------------------------------------------- what the invariant implies

  /** A slot's intent is completed exactly when it has its one terminal receipt with audit and retirement, failed
      exactly when it has its one operator receipt; never both. */
  lemma ReceiptsDecide(l: Ledger, c: Name)
    requires Inv(l) && c in l.intents && l.intents[c].request.slot.Some?
    ensures l.intents[c].state == Completed <==> HasReceipt(l, c, l.intents[c])
    ensures l.intents[c].state == Completed <==> exists j :: 0 <= j < |l.receipts| && l.receipts[j].client == c
    ensures l.intents[c].state == Failed <==> HasOperator(l, c, l.intents[c])
    ensures l.intents[c].state == Failed <==>
      exists j :: 0 <= j < |l.operatorReceipts| && l.operatorReceipts[j].client == c
    ensures !(HasReceipt(l, c, l.intents[c]) && HasOperator(l, c, l.intents[c]))
  {
    var n := l.intents[c];
    assert IntentOk(l, c, n);
    if HasReceipt(l, c, n) {
      var i :| OneReceipt(l, c, i) && ReceiptAgrees(l, c, n, l.receipts[i]);
      assert l.receipts[i].client == c;
    }
    if HasOperator(l, c, n) {
      var i :| OneOperator(l, c, i) && OperatorAgrees(l, c, n, l.operatorReceipts[i]);
      assert l.operatorReceipts[i].client == c;
    }
  }

  lemma OneUnfinished(l: Ledger, a: Name, b: Name)
    requires Inv(l) && a in l.intents && b in l.intents
    ensures !Terminal(l.intents[a].state) && !Terminal(l.intents[b].state) ==>
      l.intents[a].request.target == l.intents[b].request.target ==> a == b
    ensures l.intents[a].request.slot.Some? && l.intents[a].request.slot == l.intents[b].request.slot ==> a == b
  {
    if Clash(l, a, b) { }
  }

  lemma LaterReflexive(a: Ledger)
    ensures Later(a, a)
  {}

  /** An abandonment is never forgotten, so the ban on its thread holds for every later state. */
  lemma LaterTransitive(a: Ledger, b: Ledger, c: Ledger)
    requires Later(a, b) && Later(b, c)
    ensures Later(a, c)
  {
    forall target, thread | Abandons(a, target, thread) ensures Abandons(b, target, thread) {
      var j :| 0 <= j < |a.operatorEvents| && Abandonment(a.operatorEvents[j], target, thread);
      assert b.operatorEvents[j] == a.operatorEvents[j];
    }
  }

  // ------------------------------------------------------------ building blocks

  function WithIntent(l: Ledger, c: Name, n: Intent): Ledger { l.(intents := l.intents[c := n]) }

  /** An intent other than `c` keeps its receipts when rows about `c` are appended. */
  ghost predicate Appended(a: Ledger, b: Ledger, c: Name) {
    && a.attempts <= b.attempts && (forall j :: |a.attempts| <= j < |b.attempts| ==> b.attempts[j].client == c)
    && a.finals <= b.finals && (forall j :: |a.finals| <= j < |b.finals| ==> b.finals[j].client == c)
    && a.events <= b.events
    && (forall j :: |a.events| <= j < |b.events| && b.events[j].Retired? ==> b.events[j].client == c)
    && a.receipts <= b.receipts && (forall j :: |a.receipts| <= j < |b.receipts| ==> b.receipts[j].client == c)
    && a.operatorReceipts <= b.operatorReceipts
    && (forall j :: |a.operatorReceipts| <= j < |b.operatorReceipts| ==> b.operatorReceipts[j].client == c)
    && a.operatorEvents <= b.operatorEvents
  }

  lemma OthersKeep(a: Ledger, b: Ledger, c: Name, o: Name, n: Intent)
    requires Appended(a, b, c) && o != c && IntentOk(a, o, n)
    ensures IntentOk(b, o, n)
  {
    assert NoReceipt(a, o) ==> NoReceipt(b, o);
    assert NoFinal(a, o) ==> NoFinal(b, o);
    assert NoRetirement(a, o) ==> NoRetirement(b, o);
    assert NoOperator(a, o) ==> NoOperator(b, o);
    if HasReceipt(a, o, n) { ReceiptKept(a, b, c, o, n); }
    if HasOperator(a, o, n) { OperatorKept(a, b, c, o, n); }
  }

  lemma ReceiptKept(a: Ledger, b: Ledger, c: Name, o: Name, n: Intent)
    requires Appended(a, b, c) && o != c && HasReceipt(a, o, n)
    ensures HasReceipt(b, o, n)
  {
    var i :| OneReceipt(a, o, i) && ReceiptAgrees(a, o, n, a.receipts[i]);
    assert OneReceipt(b, o, i) && b.receipts[i] == a.receipts[i];
    var r := a.receipts[i];
    assert OneRetirement(b, o, r.retirement);
    var k :| OneFinal(a, o, k) && a.finals[k].payload == r.payload;
    assert OneFinal(b, o, k) && b.finals[k] == a.finals[k];
    assert ReceiptAgrees(b, o, n, b.receipts[i]);
  }

  lemma OperatorKept(a: Ledger, b: Ledger, c: Name, o: Name, n: Intent)
    requires Appended(a, b, c) && o != c && HasOperator(a, o, n)
    ensures HasOperator(b, o, n)
  {
    var i :| OneOperator(a, o, i) && OperatorAgrees(a, o, n, a.operatorReceipts[i]);
    assert OneOperator(b, o, i) && b.operatorReceipts[i] == a.operatorReceipts[i];
    assert OperatorAgrees(b, o, n, b.operatorReceipts[i]);
  }

  /** Attempt audits are no part of what an intent's state promises. */
  lemma RowsAlone(a: Ledger, b: Ledger, c: Name, n: Intent)
    requires b == a.(attempts := b.attempts) && IntentOk(a, c, n)
    ensures IntentOk(b, c, n)
  {
    OthersKeep(a.(attempts := []), b.(attempts := []), c + 1, c, n);
  }

  /** Changing one intent, with rows about it alone, keeps the invariant if it keeps the intent's own part. */
  lemma ChangeKeeps(a: Ledger, b: Ledger, c: Name)
    requires Inv(a) && Appended(a, b, c) && c in b.intents && b.intents == a.intents[c := b.intents[c]]
    requires IntentOk(b, c, b.intents[c])
    requires Distinct(b.attempts)
    requires c in a.intents ==> IntentLater(a.intents[c], b.intents[c])
    requires c !in a.intents ==> !Abandons(a, b.intents[c].request.target, b.intents[c].request.thread)
    requires forall o :: o != c ==> !Clash(b, c, o) && !Clash(b, o, c)
    ensures Inv(b) && Later(a, b)
  {
    forall x, y | Clash(b, x, y) ensures x == y {
      if x != c && y != c { assert Clash(a, x, y); }
    }
    forall o | o in b.intents ensures IntentOk(b, o, b.intents[o]) {
      if o != c { assert IntentOk(a, o, a.intents[o]); OthersKeep(a, b, c, o, a.intents[o]); }
    }
  }

  /** An intent that only moves on clashes with nobody new. */
  lemma NoNewClash(a: Ledger, b: Ledger, c: Name)
    requires Inv(a) && c in a.intents && c in b.intents && b.intents == a.intents[c := b.intents[c]]
    requires IntentLater(a.intents[c], b.intents[c])
    ensures forall o :: o != c ==> !Clash(b, c, o) && !Clash(b, o, c)
  {
    forall o | o != c ensures !Clash(b, c, o) && !Clash(b, o, c) { assert !Clash(a, c, o) && !Clash(a, o, c); }
  }

  /** A state change that appends nothing; the state's receipts must already fit. */
  lemma MoveKeeps(l: Ledger, c: Name, n: Intent)
    requires Inv(l) && c in l.intents && IntentLater(l.intents[c], n)
    requires n.request.slot.Some? && !Terminal(l.intents[c].state) ==> !Terminal(n.state)
    ensures Inv(WithIntent(l, c, n)) && Later(l, WithIntent(l, c, n))
  {
    var b := WithIntent(l, c, n);
    NoNewClash(l, b, c);
    assert IntentOk(l, c, l.intents[c]);
    if n.request.slot.Some? && Terminal(l.intents[c].state) {
      assert b == l;
      LaterReflexive(l);
    } else {
      assert IntentOk(b, c, n);
      ChangeKeeps(l, b, c);
    }
  }
}
