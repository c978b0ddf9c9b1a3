/** The paid-intent half of the hot-join store: each method is one transaction. */
module PaidLedger {
  import opened Wrappers
  import opened PaidIntents
  import D = Deliveries

  datatype Refusal = Missing | Conflict | Stale | Banned | Incomplete | Duplicate | Unacknowledged | Malformed

  const OWNER_ABANDONED: Name := 1
  const OWNER_CANCELLED: Name := 2
  const NOT_DISPATCHED: Name := 3

  /** The adapter return codes that end a paid turn, and their names. */
  function DispositionOf(rc: int): (r: Option<string>)
    ensures r.Some? <==> rc in {0, 123, 124, 125, 130}
    ensures r == Some("completed") <==> rc == 0
    ensures r == Some("owner_stop") <==> rc == 130
  {
    if rc == 0 then Some("completed")
    else if rc == 123 then Some("protocol_failure")
    else if rc == 124 then Some("hard_timeout")
    else if rc == 125 then Some("model_rerouted_or_unattested")
    else if rc == 130 then Some("owner_stop")
    else None
  }

  /** A disposition names its return code. */
  lemma DispositionNamesCode(a: int, b: int)
    requires DispositionOf(a).Some? && DispositionOf(a) == DispositionOf(b)
    ensures a == b
  {
    assert |"completed"| == 9 && |"protocol_failure"| == 16 && |"hard_timeout"| == 12
      && |"model_rerouted_or_unattested"| == 28 && |"owner_stop"| == 10;
  }

  /** What a caller reports about the adapter: return code and disposition, each possibly missing. */
  datatype Report = Report(rc: Option<int>, disposition: Option<string>)
  {
    predicate Absent() { rc.None? && disposition.None? }

    predicate Exact() { rc.Some? && disposition.Some? && DispositionOf(rc.value) == disposition }

    function Verdict(): Option<PaidIntents.Verdict> {
      if rc.Some? && disposition.Some? then Some(PaidIntents.Verdict(rc.value, disposition.value)) else None
    }

    function Told(): PaidIntents.Verdict { Verdict().GetOr(PaidIntents.Verdict(0, "")) }
  }

  /** A slot's turn needs an exact report; any other may go without, but not with half of one. */
  predicate GoodReport(q: Request, report: Report) { report.Exact() || (q.slot.None? && report.Absent()) }

  // ---------------------------------------------------------------- row changes

  /** The intent completed; for a slot, with its thread retired and one receipt for both. */
  function Finished(l: Ledger, c: Name, turn: Name, status: Name, verdict: Option<Verdict>, payload: Name): Ledger
    requires c in l.intents
  {
    var n := l.intents[c];
    var q := n.request;
    var b := l.(intents := l.intents[c := n.(state := Completed, turn := Some(turn), status := Some(status))],
                finals := l.finals + [Audit(c, payload)]);
    if q.slot.None? || verdict.None? then b
    else b.(threads := b.threads - {q.target}, events := b.events + [Retired(q.target, q.thread, c)],
            receipts := b.receipts + [Receipt(c, q, turn, status, verdict.value, payload, |l.events|)])
  }

  /** What a first final report leaves behind, row by row: the audit, the completed intent and, for a slot, the thread
      taken from its target with the event that says so and the receipt that cites it. */
  ghost predicate Finalized(a: Ledger, b: Ledger, c: Name, turn: Name, status: Name, report: Report, payload: Name)
    requires c in a.intents
  {
    var q := a.intents[c].request;
    && b.intents == a.intents[c := Intent(q, Completed, Some(turn), Some(status))]
    && b.finals == a.finals + [Audit(c, payload)] && b.attempts == a.attempts
    && b.operatorEvents == a.operatorEvents && b.operatorReceipts == a.operatorReceipts
    && (q.slot.None? ==> b.threads == a.threads && b.events == a.events && b.receipts == a.receipts)
    && (q.slot.Some? ==>
          && report.rc.Some? && report.disposition.Some?
          && b.threads == a.threads - {q.target}
          && b.events == a.events + [Retired(q.target, q.thread, c)]
          && b.receipts == a.receipts + [Receipt(c, q, turn, status,
               PaidIntents.Verdict(report.rc.value, report.disposition.value), payload, |a.events|)])
  }

  /** What the owner's end of an intent leaves behind: the failed intent, one event and, for a slot, one receipt. */
  ghost predicate EndedByOwner(a: Ledger, b: Ledger, c: Name, action: Action, status: Name)
    requires c in a.intents
  {
    var n := a.intents[c];
    var q := n.request;
    && b.intents == a.intents[c := Intent(q, Failed, n.turn, Some(status))]
    && b.operatorEvents == a.operatorEvents + [OperatorEvent(c, action, q.target, q.thread, n.state)]
    && b.operatorReceipts ==
         (if q.slot.None? then a.operatorReceipts
          else a.operatorReceipts + [OperatorReceipt(c, q, n.turn, action, n.state, status, |a.operatorEvents|)])
    && b.threads == a.threads && b.events == a.events && b.receipts == a.receipts
    && b.finals == a.finals && b.attempts == a.attempts
  }

  lemma FinishedKeeps(l: Ledger, c: Name, turn: Name, status: Name, verdict: Option<Verdict>, payload: Name)
    requires Inv(l) && c in l.intents && !Terminal(l.intents[c].state)
    requires (l.intents[c].request.slot.Some? ==> verdict.Some?)
    ensures Inv(Finished(l, c, turn, status, verdict, payload))
    ensures Later(l, Finished(l, c, turn, status, verdict, payload))
  {
    var b := Finished(l, c, turn, status, verdict, payload);
    assert IntentOk(l, c, l.intents[c]);
    NoNewClash(l, b, c);
    if l.intents[c].request.slot.Some? {
      ReceiptFits(l, c, turn, status, verdict.value, payload);
    } else {
      assert NoReceipt(b, c) && NoRetirement(b, c) && NoOperator(b, c);
    }
    assert Appended(l, b, c);
    ChangeKeeps(l, b, c);
  }

  lemma ReceiptFits(l: Ledger, c: Name, turn: Name, status: Name, verdict: Verdict, payload: Name)
    requires c in l.intents && l.intents[c].request.slot.Some? && NothingTerminal(l, c) && NoOperator(l, c)
    ensures IntentOk(Finished(l, c, turn, status, Some(verdict), payload), c,
                     Finished(l, c, turn, status, Some(verdict), payload).intents[c])
  {
    var b := Finished(l, c, turn, status, Some(verdict), payload);
    var n := b.intents[c];
    var i := |l.receipts|;
    assert OneReceipt(b, c, i) && OneRetirement(b, c, |l.events|);
    assert OneFinal(b, c, |l.finals|) && b.finals[|l.finals|].payload == b.receipts[i].payload;
    assert ReceiptAgrees(b, c, n, b.receipts[i]);
    assert NoOperator(b, c);
  }

  function Audited(l: Ledger, c: Name, payload: Name): Ledger { l.(finals := l.finals + [Audit(c, payload)]) }

  lemma AuditKeeps(l: Ledger, c: Name, payload: Name)
    requires Inv(l) && c in l.intents && l.intents[c].request.slot.None? && l.intents[c].state == Completed
    ensures Inv(Audited(l, c, payload)) && Later(l, Audited(l, c, payload))
  {
    var b := Audited(l, c, payload);
    assert IntentOk(l, c, l.intents[c]);
    assert NoReceipt(b, c) && NoRetirement(b, c) && NoOperator(b, c);
    NoNewClash(l, b, c);
    ChangeKeeps(l, b, c);
  }

  /** The intent failed by the owner's hand; for a slot, with a receipt citing the event. */
  function Given(l: Ledger, c: Name, action: Action, status: Name): Ledger
    requires c in l.intents
  {
    var n := l.intents[c];
    var q := n.request;
    var b := l.(intents := l.intents[c := n.(state := Failed, status := Some(status))],
                operatorEvents := l.operatorEvents + [OperatorEvent(c, action, q.target, q.thread, n.state)]);
    if q.slot.None? then b
    else
      var receipt := OperatorReceipt(c, q, n.turn, action, n.state, status, |l.operatorEvents|);
      b.(operatorReceipts := b.operatorReceipts + [receipt])
  }

  lemma GivenKeeps(l: Ledger, c: Name, action: Action, status: Name)
    requires Inv(l) && c in l.intents && !Terminal(l.intents[c].state)
    requires (action == Cancelled <==> l.intents[c].state == Prepared)
    ensures Inv(Given(l, c, action, status)) && Later(l, Given(l, c, action, status))
  {
    var b := Given(l, c, action, status);
    assert IntentOk(l, c, l.intents[c]);
    NoNewClash(l, b, c);
    if l.intents[c].request.slot.Some? {
      var i := |l.operatorReceipts|;
      assert OneOperator(b, c, i);
      assert OperatorAgrees(b, c, b.intents[c], b.operatorReceipts[i]);
      assert NoReceipt(b, c) && NoFinal(b, c) && NoRetirement(b, c);
    } else {
      assert NoReceipt(b, c) && NoRetirement(b, c) && NoOperator(b, c);
    }
    assert Appended(l, b, c);
    ChangeKeeps(l, b, c);
  }

  /** The audit of an attempt, kept once per payload. */
  function Attempted(l: Ledger, c: Name, payload: Name): Ledger {
    if Audit(c, payload) in l.attempts then l else l.(attempts := l.attempts + [Audit(c, payload)])
  }

  lemma AttemptKeeps(l: Ledger, c: Name, payload: Name)
    requires Inv(l) && c in l.intents
    ensures Inv(Attempted(l, c, payload)) && Later(l, Attempted(l, c, payload))
  {
    var b := Attempted(l, c, payload);
    LaterReflexive(l);
    NoNewClash(l, b, c);
    assert IntentOk(l, c, l.intents[c]);
    if b != l {
      assert IntentOk(b, c, b.intents[c]) by { RowsAlone(l, b, c, l.intents[c]); }
      ChangeKeeps(l, b, c);
    }
  }

  /** What an attempt's audit makes of the intent. */
  function AfterAttempt(n: Intent): Intent {
    match n.state
    case Prepared => if n.request.slot.None? then n.(state := Failed, status := Some(NOT_DISPATCHED)) else n
    case Dispatching => n.(state := DeliveryUnknown)
    case Started => n.(state := DeliveryUnknown)
    case _ => n
  }

  lemma AttemptMoves(l: Ledger, c: Name, payload: Name)
    requires Inv(l) && c in l.intents
    ensures var n, noted := l.intents[c], Attempted(l, c, payload);
      && var b := WithIntent(noted, c, AfterAttempt(n));
      && Inv(b) && Later(l, b) && (AfterAttempt(n) == n ==> b == noted)
  {
    var n, noted := l.intents[c], Attempted(l, c, payload);
    var b := WithIntent(noted, c, AfterAttempt(n));
    AttemptKeeps(l, c, payload);
    MoveKeeps(noted, c, AfterAttempt(n));
    LaterTransitive(l, noted, b);
    if AfterAttempt(n) == n { assert b.intents == noted.intents; }
  }

  function Created(l: Ledger, c: Name, q: Request): Ledger { WithIntent(l, c, Intent(q, Prepared, None, None)) }

  predicate SlotTaken(l: Ledger, q: Request, c: Name) {
    c in l.intents && q.slot.Some? && l.intents[c].request.slot == q.slot
  }

  predicate Unfinished(l: Ledger, target: Name, c: Name) {
    c in l.intents && l.intents[c].request.target == target && !Terminal(l.intents[c].state)
  }

  /** The intent of the request's slot, whatever its state. */
  ghost predicate OfSlot(n: Intent, q: Request) { q.slot.Some? && n.request.slot == q.slot }

  /** An intent of the request's target that has not ended. */
  ghost predicate OfTarget(n: Intent, q: Request) {
    n.request.target == q.target && n.state != Completed && n.state != Failed
  }

  lemma CreatedKeeps(l: Ledger, c: Name, q: Request)
    requires Inv(l) && c !in l.intents && !Abandons(l, q.target, q.thread)
    requires (forall o :: !SlotTaken(l, q, o)) && (forall o :: !Unfinished(l, q.target, o))
    ensures Inv(Created(l, c, q)) && Later(l, Created(l, c, q))
  {
    var b := Created(l, c, q);
    forall o | o != c ensures !Clash(b, c, o) && !Clash(b, o, c) {
      assert !SlotTaken(l, q, o) && !Unfinished(l, q.target, o);
    }
    assert NoReceipt(b, c) && NoFinal(b, c) && NoRetirement(b, c) && NoOperator(b, c);
    assert IntentOk(b, c, b.intents[c]);
    ChangeKeeps(l, b, c);
  }

  /** Thread bookkeeping touches no intent and no receipt. */
  function WithThread(l: Ledger, target: Name, thread: Option<Name>, e: ThreadEvent): Ledger {
    l.(threads := if thread.Some? then l.threads[target := thread.value] else l.threads - {target},
       events := l.events + [e])
  }

  lemma ThreadKeeps(l: Ledger, target: Name, thread: Option<Name>, e: ThreadEvent)
    requires Inv(l) && !e.Retired?
    ensures Inv(WithThread(l, target, thread, e)) && Later(l, WithThread(l, target, thread, e))
  {
    var b := WithThread(l, target, thread, e);
    forall a, c | Clash(b, a, c) ensures a == c { assert Clash(l, a, c); }
    forall c | c in b.intents ensures IntentOk(b, c, b.intents[c]) {
      assert IntentOk(l, c, l.intents[c]);
      OthersKeep(l, b, c + 1, c, l.intents[c]);
    }
  }

  datatype Call =
    | RoundIntent(request: Request, id: Name)
    | RecordRoundIntent(client: Name, state: IntentState, turn: Option<Name>, status: Option<Name>,
                        expected: Option<set<IntentState>>)
    | AttemptAudit(client: Name, payload: Name)
    | FinalizeRound(client: Name, payload: Name, thread: Name, on: Name, end: Name, report: Report)
    | Abandon(target: Name, thread: Name, client: Name, prior: IntentState, acknowledged: bool)
    | Cancel(target: Name, thread: Name, client: Name)
    | SetThread(target: Name, thread: Name)
    | RemoveThread(target: Name, thread: Name)

  class PaidLedger {
    var ledger: Ledger

    /** The delivery half of the same store, written in the same transactions. */
    const messages: D.DeliveryLedger

    /** Whether an audit payload is within its limit and made of well-formed lines. */
    const readable: Name -> bool

    /** Whether an audit payload attests this request, turn, status and verdict. */
    const attests: (Name, Request, Name, Name, Verdict) -> bool

    ghost predicate Valid() reads this, messages { Inv(ledger) && Attested(ledger) && messages.Valid() }

    /** Every stored audit is readable, and every receipt is attested by the audit it cites. */
    ghost predicate Attested(l: Ledger) {
      && (forall j :: 0 <= j < |l.attempts| ==> readable(l.attempts[j].payload))
      && (forall j :: 0 <= j < |l.finals| ==> readable(l.finals[j].payload))
      && (forall j :: 0 <= j < |l.receipts| ==> IsAttested(l.receipts[j]))
    }

    predicate IsAttested(r: Receipt) {
      && DispositionOf(r.verdict.rc) == Some(r.verdict.disposition)
      && attests(r.payload, r.request, r.turn, r.status, r.verdict)
    }

    constructor (readable: Name -> bool, attests: (Name, Request, Name, Name, Verdict) -> bool)
      ensures ledger == EMPTY && Valid() && this.readable == readable && this.attests == attests
      ensures fresh(messages) && messages.State() == D.Ledger(map[], map[])
    {
      ledger := EMPTY;
      this.readable, this.attests := readable, attests;
      messages := new D.DeliveryLedger();
    }

    predicate IsAbandoned(target: Name, thread: Name) reads this {
      exists j :: 0 <= j < |ledger.operatorEvents| && Abandonment(ledger.operatorEvents[j], target, thread)
    }

    /** `round_intent`: the slot's intent, else the target's unfinished one, else a new one. */
    method RoundIntent(q: Request, id: Name) returns (r: Result<Name, Refusal>)
      requires Valid()
      modifies this`ledger
      ensures Valid() && Later(old(ledger), ledger)
      ensures forall c :: c in old(ledger).intents && OfSlot(old(ledger).intents[c], q) ==>
        ledger == old(ledger) && r == if old(ledger).intents[c].request == q then Ok(c) else Err(Conflict)
      ensures (forall c :: c in old(ledger).intents ==> !OfSlot(old(ledger).intents[c], q)) ==>
        forall c :: c in old(ledger).intents && OfTarget(old(ledger).intents[c], q) ==>
          ledger == old(ledger) && r == if old(ledger).intents[c].request == q then Ok(c) else Err(Conflict)
      ensures (forall c :: c in old(ledger).intents ==>
                 !OfSlot(old(ledger).intents[c], q) && !OfTarget(old(ledger).intents[c], q)) ==>
        && (r == if Abandons(old(ledger), q.target, q.thread) then Err(Banned)
                 else if id in old(ledger).intents then Err(Duplicate) else Ok(id))
        && ledger == (if r.Ok? then old(ledger).(intents := old(ledger).intents[id := Intent(q, Prepared, None, None)])
                      else old(ledger))
    {
      LaterReflexive(ledger);
      if c :| c in ledger.intents && SlotTaken(ledger, q, c) {
        OnlyMatch(q, c);
        return if ledger.intents[c].request == q then Ok(c) else Err(Conflict);
      }
      forall o | o in ledger.intents ensures !OfSlot(ledger.intents[o], q) { assert !SlotTaken(ledger, q, o); }
      if c :| c in ledger.intents && Unfinished(ledger, q.target, c) {
        OnlyMatch(q, c);
        return if ledger.intents[c].request == q then Ok(c) else Err(Conflict);
      }
      forall o | o in ledger.intents ensures !OfTarget(ledger.intents[o], q) {
        assert !Unfinished(ledger, q.target, o);
      }
      if IsAbandoned(q.target, q.thread) { return Err(Banned); }
      if id in ledger.intents { return Err(Duplicate); }
      CreatedKeeps(ledger, id, q);
      ledger := Created(ledger, id, q);
      return Ok(id);
    }

    /** No other intent is the slot's, and no other is the target's unfinished one. */
    lemma OnlyMatch(q: Request, c: Name)
      requires Valid() && c in ledger.intents
      ensures OfSlot(ledger.intents[c], q) ==>
        forall o :: o in ledger.intents && OfSlot(ledger.intents[o], q) ==> o == c
      ensures OfTarget(ledger.intents[c], q) ==>
        forall o :: o in ledger.intents && OfTarget(ledger.intents[o], q) ==> o == c
    {
      forall o | o in ledger.intents
        ensures OfSlot(ledger.intents[c], q) && OfSlot(ledger.intents[o], q) ==> o == c
        ensures OfTarget(ledger.intents[c], q) && OfTarget(ledger.intents[o], q) ==> o == c
      {
        OneUnfinished(ledger, c, o);
      }
    }

    /** `record_round_intent`: a slot's intent never becomes terminal this way, and nothing leaves a terminal state. */
    method RecordRoundIntent(c: Name, state: IntentState, turn: Option<Name>, status: Option<Name>,
                             expected: Option<set<IntentState>>) returns (r: Result<(), Refusal>)
      requires Valid()
      modifies this`ledger
      ensures Valid() && Later(old(ledger), ledger)
      ensures r.Ok? <==>
        && c in old(ledger).intents && (expected.Some? ==> old(ledger).intents[c].state in expected.value)
        && (old(ledger).intents[c].request.slot.Some? ==> !Terminal(state))
        && (Terminal(old(ledger).intents[c].state) ==> state == old(ledger).intents[c].state)
      ensures r.Err? ==> ledger == old(ledger)
      ensures r.Ok? ==> ledger == WithIntent(old(ledger), c,
        Intent(old(ledger).intents[c].request, state, if turn.Some? then turn else old(ledger).intents[c].turn, status))
    {
      LaterReflexive(ledger);
      if c !in ledger.intents { return Err(Missing); }
      var n := ledger.intents[c];
      if expected.Some? && n.state !in expected.value { return Err(Stale); }
      if n.request.slot.Some? && Terminal(state) { return Err(Incomplete); }
      if Terminal(n.state) && state != n.state { return Err(Stale); }
      var m := Intent(n.request, state, if turn.Some? then turn else n.turn, status);
      MoveKeeps(ledger, c, m);
      ledger := WithIntent(ledger, c, m);
      return Ok(());
    }

    /** `record_round_attempt_audit`: one audit row per payload; a dispatched intent becomes unknown, and only one
        without a slot fails outright. */
    method AttemptAudit(c: Name, payload: Name) returns (r: Result<(), Refusal>)
      requires Valid()
      modifies this`ledger
      ensures Valid() && Later(old(ledger), ledger)
      ensures r.Ok? <==> readable(payload) && c in old(ledger).intents
      ensures r.Err? ==> ledger == old(ledger)
      ensures r.Ok? ==> Audit(c, payload) in ledger.attempts
      ensures r.Ok? ==>
        ledger == WithIntent(Attempted(old(ledger), c, payload), c, AfterAttempt(old(ledger).intents[c]))
    {
      LaterReflexive(ledger);
      if !readable(payload) { return Err(Malformed); }
      if c !in ledger.intents { return Err(Missing); }
      AttemptMoves(ledger, c, payload);
      if Audit(c, payload) !in ledger.attempts { ledger := ledger.(attempts := ledger.attempts + [Audit(c, payload)]); }
      var n := ledger.intents[c];
      if n.state == Prepared {
        if n.request.slot.None? {
          ledger := WithIntent(ledger, c, n.(state := Failed, status := Some(NOT_DISPATCHED)));
        }
      } else if n.state != Completed && n.state != Failed && n.state != DeliveryUnknown {
        ledger := WithIntent(ledger, c, n.(state := DeliveryUnknown));
      }
      return Ok(());
    }

    /** The first final audit recorded for `c`; it is canonical. */
    method FindFinal(c: Name) returns (r: Option<Name>)
      requires Valid()
      ensures r.None? <==> NoFinal(ledger, c)
      ensures r.Some? ==> exists i :: 0 <= i < |ledger.finals| && ledger.finals[i] == Audit(c, r.value)
    {
      r := None;
      for i := 0 to |ledger.finals|
        invariant r.None? <==> forall j :: 0 <= j < i ==> ledger.finals[j].client != c
        invariant r.Some? ==> exists j :: 0 <= j < i && ledger.finals[j] == Audit(c, r.value)
      {
        if ledger.finals[i].client == c { r := Some(ledger.finals[i].payload); }
      }
    }

    /** An unfinished intent has no final audit, so the one given is the canonical one. */
    lemma NoEarlyFinal(c: Name)
      requires Valid() && c in ledger.intents && !Terminal(ledger.intents[c].state)
      ensures NoFinal(ledger, c)
    {
      assert IntentOk(ledger, c, ledger.intents[c]);
    }

    /** The report names this intent's thread and turn, and a verdict exactly as far as its slot demands. */
    predicate Matches(c: Name, thread: Name, turn: Name, report: Report) reads this {
      && c in ledger.intents
      && (|| (report.rc.Some? && report.disposition.Some? && DispositionOf(report.rc.value) == report.disposition)
          || (ledger.intents[c].request.slot.None? && report.rc.None? && report.disposition.None?))
      && ledger.intents[c].request.thread == thread
      && (ledger.intents[c].turn.Some? ==> ledger.intents[c].turn == Some(turn))
    }

    /** For a slot, the audit attests the turn and the target's current thread is the one to retire. */
    predicate CanFinish(c: Name, payload: Name, thread: Name, turn: Name, status: Name, report: Report) reads this {
      && readable(payload) && Matches(c, thread, turn, report) && !Terminal(ledger.intents[c].state)
      && (ledger.intents[c].request.slot.Some? ==>
           && attests(payload, ledger.intents[c].request, turn, status, report.Told())
           && ledger.intents[c].request.target in ledger.threads
           && ledger.threads[ledger.intents[c].request.target] == thread)
    }

    /** A completed turn is reported again as its receipt has it, and its target has no thread yet. */
    ghost predicate CanReplay(c: Name, payload: Name, thread: Name, turn: Name, status: Name,
                              report: Report) reads this {
      && readable(payload) && Matches(c, thread, turn, report) && ledger.intents[c].state == Completed
      && (ledger.intents[c].request.slot.Some? ==>
           && ledger.intents[c].request.target !in ledger.threads
           && exists i :: OneReceipt(ledger, c, i) && ledger.receipts[i].status == status
                          && ledger.receipts[i].verdict == report.Told())
    }

    /** `finalize_round`: audit, completion, retirement and receipt, with the receipts of the turn's messages,
        together or not at all. */
    method FinalizeRound(c: Name, payload: Name, thread: Name, turn: Name, status: Name, report: Report)
      returns (r: Result<(), Refusal>)
      requires Valid()
      modifies this`ledger, messages`deliveries
      ensures Valid() && Later(old(ledger), ledger)
      ensures r.Ok? <==>
        || old(CanFinish(c, payload, thread, turn, status, report))
        || old(CanReplay(c, payload, thread, turn, status, report))
      ensures r.Err? ==> ledger == old(ledger) && messages.State() == old(messages.State())
      ensures r.Ok? ==> D.TurnDone(old(messages.State()), thread, turn, messages.State())
      ensures r.Ok? && !Terminal(old(ledger).intents[c].state) ==>
        Finalized(old(ledger), ledger, c, turn, status, report, payload)
      ensures r.Ok? && Terminal(old(ledger).intents[c].state) ==>
        ledger == if NoFinal(old(ledger), c) then old(ledger).(finals := old(ledger).finals + [Audit(c, payload)])
                  else old(ledger)
    {
      LaterReflexive(ledger);
      if !readable(payload) { return Err(Malformed); }
      if c !in ledger.intents { return Err(Missing); }
      var n := ledger.intents[c];
      if !GoodReport(n.request, report) { return Err(Incomplete); }
      if n.request.thread != thread || (n.turn.Some? && n.turn != Some(turn)) { return Err(Conflict); }
      if n.state == Failed { return Err(Stale); }
      if n.state == Completed {
        r := Replay(c, payload, turn, status, report);
      } else {
        r := Finish(c, payload, turn, status, report);
      }
      if r.Ok? { messages.CompleteTurn(thread, turn); }
    }

    /** The first report of a terminal turn. */
    method Finish(c: Name, payload: Name, turn: Name, status: Name, report: Report) returns (r: Result<(), Refusal>)
      requires Valid() && readable(payload) && c in ledger.intents && !Terminal(ledger.intents[c].state)
      requires Matches(c, ledger.intents[c].request.thread, turn, report)
      modifies this`ledger
      ensures Valid() && Later(old(ledger), ledger)
      ensures r.Ok? <==> old(CanFinish(c, payload, ledger.intents[c].request.thread, turn, status, report))
      ensures if r.Ok? then Finalized(old(ledger), ledger, c, turn, status, report, payload) else ledger == old(ledger)
    {
      LaterReflexive(ledger);
      var n := ledger.intents[c];
      NoEarlyFinal(c);
      var prior := FindFinal(c);
      assert prior.None?;
      if n.request.slot.Some? {
        if !attests(payload, n.request, turn, status, report.Told()) { return Err(Conflict); }
        if n.request.target !in ledger.threads || ledger.threads[n.request.target] != n.request.thread {
          return Err(Conflict);
        }
      }
      FinishedKeeps(ledger, c, turn, status, report.Verdict(), payload);
      ledger := Finished(ledger, c, turn, status, report.Verdict(), payload);
      return Ok(());
    }

    /** A later report: without a slot it may add the audit, with one it only compares; the stored audit always
        attests the receipt. */
    method Replay(c: Name, payload: Name, turn: Name, status: Name, report: Report) returns (r: Result<(), Refusal>)
      requires Valid() && readable(payload) && c in ledger.intents && ledger.intents[c].state == Completed
      requires Matches(c, ledger.intents[c].request.thread, turn, report)
      modifies this`ledger
      ensures Valid() && Later(old(ledger), ledger)
      ensures r.Ok? <==> old(CanReplay(c, payload, ledger.intents[c].request.thread, turn, status, report))
      ensures ledger == if r.Ok? && NoFinal(old(ledger), c) then Audited(old(ledger), c, payload) else old(ledger)
    {
      LaterReflexive(ledger);
      var n := ledger.intents[c];
      var prior := FindFinal(c);
      if n.request.slot.None? {
        if prior.None? {
          AuditKeeps(ledger, c, payload);
          ledger := Audited(ledger, c, payload);
        }
        return Ok(());
      }
      var i := FindReceipt(c);
      var q := ledger.receipts[i];
      ghost var k :| OneFinal(ledger, c, k) && ledger.finals[k].payload == q.payload;
      assert prior == Some(q.payload);
      if !attests(prior.value, n.request, turn, status, report.Told()) { return Err(Conflict); }
      if q.status != status || q.verdict != report.Told() || n.request.target in ledger.threads {
        return Err(Conflict);
      }
      return Ok(());
    }

    /** A completed slot's receipt exists, and its audit, turn and retirement are those of the intent. */
    method FindReceipt(c: Name) returns (i: nat)
      requires Valid() && c in ledger.intents && ledger.intents[c].request.slot.Some?
      requires ledger.intents[c].state == Completed
      ensures i < |ledger.receipts| && OneReceipt(ledger, c, i)
      ensures ReceiptAgrees(ledger, c, ledger.intents[c], ledger.receipts[i])
    {
      assert IntentOk(ledger, c, ledger.intents[c]);
      ghost var k :| OneReceipt(ledger, c, k) && ReceiptAgrees(ledger, c, ledger.intents[c], ledger.receipts[k]);
      i := 0;
      while ledger.receipts[i].client != c
        invariant 0 <= i <= k
        decreases k - i
      {
        i := i + 1;
      }
    }

    /** `abandon_round_intent`: the owner accepts an unknown paid outcome; the thread is banned from then on. */
    method Abandon(target: Name, thread: Name, c: Name, expected: IntentState, acknowledged: bool)
      returns (r: Result<(), Refusal>)
      requires Valid()
      modifies this`ledger
      ensures Valid() && Later(old(ledger), ledger)
      ensures r.Ok? <==>
        && acknowledged && (expected == Dispatching || expected == Started || expected == DeliveryUnknown)
        && c in old(ledger).intents
        && old(ledger).intents[c].request.target == target && old(ledger).intents[c].request.thread == thread
        && old(ledger).intents[c].state == expected
      ensures if r.Ok? then EndedByOwner(old(ledger), ledger, c, Abandoned, OWNER_ABANDONED) else ledger == old(ledger)
      ensures r.Ok? ==> Abandons(ledger, target, thread)
    {
      LaterReflexive(ledger);
      if expected != Dispatching && expected != Started && expected != DeliveryUnknown { return Err(Conflict); }
      if !acknowledged { return Err(Unacknowledged); }
      if c !in ledger.intents { return Err(Missing); }
      var n := ledger.intents[c];
      if n.request.target != target || n.request.thread != thread || n.state != expected { return Err(Stale); }
      GivenKeeps(ledger, c, Abandoned, OWNER_ABANDONED);
      ghost var k := |ledger.operatorEvents|;
      ledger := Given(ledger, c, Abandoned, OWNER_ABANDONED);
      assert Abandonment(ledger.operatorEvents[k], target, thread);
      return Ok(());
    }

    /** `cancel_prepared_round_intent`: nothing was dispatched, so nothing needs to be acknowledged. */
    method Cancel(target: Name, thread: Name, c: Name) returns (r: Result<(), Refusal>)
      requires Valid()
      modifies this`ledger
      ensures Valid() && Later(old(ledger), ledger)
      ensures r.Ok? <==>
        && c in old(ledger).intents && old(ledger).intents[c].state == Prepared
        && old(ledger).intents[c].request.target == target && old(ledger).intents[c].request.thread == thread
      ensures if r.Ok? then EndedByOwner(old(ledger), ledger, c, Cancelled, OWNER_CANCELLED) else ledger == old(ledger)
    {
      LaterReflexive(ledger);
      if c !in ledger.intents { return Err(Missing); }
      var n := ledger.intents[c];
      if n.request.target != target || n.request.thread != thread || n.state != Prepared { return Err(Stale); }
      GivenKeeps(ledger, c, Cancelled, OWNER_CANCELLED);
      ledger := Given(ledger, c, Cancelled, OWNER_CANCELLED);
      return Ok(());
    }

    method SetThread(target: Name, thread: Name)
      requires Valid()
      modifies this`ledger
      ensures Valid() && Later(old(ledger), ledger)
      ensures ledger == old(ledger).(threads := old(ledger).threads[target := thread],
                                     events := old(ledger).events + [Mapped(target, thread)])
    {
      ThreadKeeps(ledger, target, Some(thread), Mapped(target, thread));
      ledger := WithThread(ledger, target, Some(thread), Mapped(target, thread));
    }

    /** `_remove_thread_id`: refused while the target has an unfinished paid turn. */
    method RemoveThread(target: Name, expected: Name) returns (r: Result<(), Refusal>)
      requires Valid()
      modifies this`ledger
      ensures Valid() && Later(old(ledger), ledger)
      ensures r.Ok? <==>
        && target in old(ledger).threads && old(ledger).threads[target] == expected
        && forall c :: c in old(ledger).intents && old(ledger).intents[c].request.target == target ==>
             Terminal(old(ledger).intents[c].state)
      ensures ledger ==
        if r.Ok? then old(ledger).(threads := old(ledger).threads - {target},
                                   events := old(ledger).events + [Removed(target, expected)])
        else old(ledger)
    {
      LaterReflexive(ledger);
      if target !in ledger.threads { return Err(Missing); }
      if ledger.threads[target] != expected { return Err(Stale); }
      if exists c :: c in ledger.intents && Unfinished(ledger, target, c) { return Err(Conflict); }
      ThreadKeeps(ledger, target, None, Removed(target, expected));
      ledger := WithThread(ledger, target, None, Removed(target, expected));
      return Ok(());
    }

    method Apply(call: Call)
      requires Valid()
      modifies this`ledger, messages`deliveries
      ensures Valid() && Later(old(ledger), ledger)
    {
      match call {
        case RoundIntent(q, id) => var _ := RoundIntent(q, id);
        case RecordRoundIntent(c, s, u, st, e) => var _ := RecordRoundIntent(c, s, u, st, e);
        case AttemptAudit(c, p) => var _ := AttemptAudit(c, p);
        case FinalizeRound(c, p, t, u, st, d) => var _ := FinalizeRound(c, p, t, u, st, d);
        case Abandon(g, t, c, p, a) => var _ := Abandon(g, t, c, p, a);
        case Cancel(g, t, c) => var _ := Cancel(g, t, c);
        case SetThread(g, t) => SetThread(g, t);
        case RemoveThread(g, t) => var _ := RemoveThread(g, t);
      }
    }

    /** Any calls, in any order: the ledger stays sound and what is terminal, receipted or banned stays so. */
    method Run(calls: seq<Call>)
      requires Valid()
      modifies this`ledger, messages`deliveries
      ensures Valid() && Later(old(ledger), ledger)
    {
      LaterReflexive(ledger);
      for n := 0 to |calls|
        invariant Valid() && Later(old(ledger), ledger)
      {
        ghost var before := ledger;
        Apply(calls[n]);
        LaterTransitive(old(ledger), before, ledger);
      }
    }
  }
}
