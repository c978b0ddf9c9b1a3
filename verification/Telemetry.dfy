/** Content-free telemetry of one paid turn: item lifecycles, interval unions and token growth. */
module Telemetry {
  import opened Wrappers
  import opened Intervals

  const MAX_TRACKED_ITEMS := 16384

  type Breakdown = map<Name, nat>

  /** One cumulative token-usage notification, already projected to its allow-listed fields. */
  datatype Usage = Usage(last: Breakdown, total: Breakdown)

  /** Whether a notification shows growth over the previous accepted one; `None` is a rejection. */
  function TotalChanged(previous: Option<Usage>, current: Usage): Option<bool> {
    if current.last.Keys != current.total.Keys then None
    else match previous
      case None => Some(exists f :: f in current.last && current.last[f] > 0)
      case Some(p) =>
        if p.last.Keys != p.total.Keys || p.total.Keys != current.total.Keys then None
        else if current.total == p.total then (if current.last == p.last then Some(false) else None)
        else if forall f :: f in current.total ==> current.total[f] == p.total[f] + current.last[f] then Some(true)
        else None
  }

  function AddBreakdown(aggregate: Option<Breakdown>, increment: Breakdown): Option<Breakdown> {
    match aggregate
    case None => Some(increment)
    case Some(a) =>
      if a.Keys != increment.Keys then None
      else Some(map f | f in a && f in increment :: a[f] + increment[f])
  }

  // ------------------------------------------------------------ token sums

  /** What the model resumed after when a growth was observed. */
  datatype Trigger = InitialOrUnattributed | ObservedAfter(category: Name) | ObservedAfterMixedOrParallel

  type ByTrigger = map<Trigger, Breakdown>

  /** The tokens of field `f` recorded under all resume triggers together. */
  ghost function Sum(m: ByTrigger, f: Name): int {
    if m == map[] then 0 else var k :| k in m; Field(m[k], f) + Sum(m - {k}, f)
  }

  function Field(b: Breakdown, f: Name): int { if f in b then b[f] else 0 }

  lemma {:induction false} SumSplits(m: ByTrigger, f: Name, k: Trigger)
    requires k in m
    ensures Sum(m, f) == Field(m[k], f) + Sum(m - {k}, f)
    decreases |m|
  {
    var j :| j in m && Sum(m, f) == Field(m[j], f) + Sum(m - {j}, f);
    if j != k {
      SumSplits(m - {j}, f, k);
      SumSplits(m - {k}, f, j);
      assert (m - {j}) - {k} == (m - {k}) - {j};
    }
  }

  lemma SumAfterGrowth(m: ByTrigger, f: Name, trigger: Trigger, b: Breakdown)
    ensures Sum(m[trigger := b], f) == Sum(m, f) - (if trigger in m then Field(m[trigger], f) else 0) + Field(b, f)
  {
    SumSplits(m[trigger := b], f, trigger);
    assert m[trigger := b] - {trigger} == m - {trigger};
    if trigger in m { SumSplits(m, f, trigger); } else { assert m - {trigger} == m; }
  }

  /** Everything recorded, field by field: last accepted total minus first accepted total, plus the
      first accepted sample. */
  ghost predicate Balanced(usage: ByTrigger, accepted: Option<Usage>, first: Option<Usage>) {
    match accepted
    case None => first.None? && usage == map[]
    case Some(now) => first.Some? && SameFields(usage, now, first.value) && Telescopes(usage, now, first.value)
  }

  ghost predicate SameFields(usage: ByTrigger, now: Usage, first: Usage) {
    && now.last.Keys == now.total.Keys == first.last.Keys == first.total.Keys
    && forall k :: k in usage ==> usage[k].Keys == now.total.Keys
  }

  ghost predicate Telescopes(usage: ByTrigger, now: Usage, first: Usage)
    requires SameFields(usage, now, first)
  {
    forall f :: f in now.total ==> Sum(usage, f) + first.total[f] == now.total[f] + first.last[f]
  }

  /** The growth of one accepted notification, filed under its resume trigger. */
  function Grown(usage: ByTrigger, trigger: Trigger, sample: Breakdown): Option<ByTrigger> {
    match AddBreakdown(if trigger in usage then Some(usage[trigger]) else None, sample)
    case None => None
    case Some(b) => Some(usage[trigger := b])
  }

  /** Accepting a notification keeps the books balanced and never meets foreign fields. */
  lemma AcceptBalances(usage: ByTrigger, accepted: Option<Usage>, first: Option<Usage>, trigger: Trigger,
                       current: Usage)
    requires Balanced(usage, accepted, first) && TotalChanged(accepted, current).Some?
    ensures var changed := TotalChanged(accepted, current).value;
      var next := if changed then Grown(usage, trigger, current.last) else Some(usage);
      next.Some? && Balanced(next.value, Some(current), if accepted.None? then Some(current) else first)
  {
    if TotalChanged(accepted, current).value {
      var next := Grown(usage, trigger, current.last).value;
      forall f | f in current.total ensures Sum(next, f) == Sum(usage, f) + current.last[f] {
        SumAfterGrowth(usage, f, trigger, next[trigger]);
      }
    }
  }

  /** Growth is attributed to the one category that completed since the last growth, if unique. */
  function TriggerOf(pendingResume: set<Name>): (r: Trigger)
    ensures r == InitialOrUnattributed <==> pendingResume == {}
    ensures forall c: Name :: r == ObservedAfter(c) <==> pendingResume == {c}
  {
    if pendingResume == {} then InitialOrUnattributed
    else if |pendingResume| == 1 then
      SingletonIsUnique(pendingResume);
      assert pendingResume == {Sole(pendingResume)};
      ObservedAfter(Sole(pendingResume))
    else ObservedAfterMixedOrParallel
  }

  function Sole(s: set<Name>): (x: Name)
    requires |s| == 1
    ensures x in s
  {
    SingletonIsUnique(s);
    assert s != {};
    var x :| x in s; x
  }

  lemma SingletonIsUnique(s: set<Name>)
    requires |s| == 1
    ensures forall x, y :: x in s && y in s ==> x == y
  {
    forall x, y | x in s && y in s ensures x == y {
      assert s == {x} + (s - {x});
    }
  }

  /** The token books of one turn. */
  datatype Books = Books(usage: ByTrigger, accepted: Option<Usage>, first: Option<Usage>, pendingResume: set<Name>)

  /** One token-usage notification: a rejected one changes nothing. */
  function Observed(b: Books, current: Usage): Books {
    match TotalChanged(b.accepted, current)
    case None => b
    case Some(changed) =>
      var next := if changed then Grown(b.usage, TriggerOf(b.pendingResume), current.last) else Some(b.usage);
      Books(next.GetOr(b.usage), Some(current), if b.accepted.None? then Some(current) else b.first,
            if changed then {} else b.pendingResume)
  }

  datatype Signal = TokenUsage(usage: Usage) | ItemEnded(category: Name)

  function Heard(b: Books, stream: seq<Signal>): Books
    decreases |stream|
  {
    if stream == [] then b
    else
      var next := match stream[0]
        case TokenUsage(u) => Observed(b, u)
        case ItemEnded(c) => b.(pendingResume := b.pendingResume + {c});
      Heard(next, stream[1..])
  }

  const NoBooks := Books(map[], None, None, {})

  /** Over any stream of notifications, rejected ones included, the growth summed over all resume triggers is the
      last accepted total minus the first accepted total plus the first accepted sample, field by field. */
  lemma TokensAreConserved(stream: seq<Signal>, f: Name)
    ensures var b := Heard(NoBooks, stream); b.accepted.Some? && f in b.accepted.value.total ==>
      b.first.Some? && f in b.first.value.total && f in b.first.value.last
      && Sum(b.usage, f) + b.first.value.total[f] == b.accepted.value.total[f] + b.first.value.last[f]
  {
    StreamBalances(NoBooks, stream);
  }

  lemma {:induction false} StreamBalances(b: Books, stream: seq<Signal>)
    requires Balanced(b.usage, b.accepted, b.first)
    ensures var e := Heard(b, stream); Balanced(e.usage, e.accepted, e.first)
    decreases |stream|
  {
    if stream != [] {
      match stream[0]
      case TokenUsage(u) =>
        if TotalChanged(b.accepted, u).Some? {
          AcceptBalances(b.usage, b.accepted, b.first, TriggerOf(b.pendingResume), u);
        }
        StreamBalances(Observed(b, u), stream[1..]);
      case ItemEnded(c) =>
        StreamBalances(b.(pendingResume := b.pendingResume + {c}), stream[1..]);
    }
  }

  /** A provider that counts properly: every total is the one before plus the sample reported with it. */
  ghost predicate Honest(stream: seq<Signal>, base: Breakdown)
    decreases |stream|
  {
    stream == [] || match stream[0]
      case TokenUsage(u) =>
        && u.last.Keys == u.total.Keys == base.Keys
        && (forall f :: f in base ==> u.total[f] == base[f] + u.last[f])
        && Honest(stream[1..], u.total)
      case ItemEnded(_) => Honest(stream[1..], base)
  }

  /** All samples of field `f` the stream reports. */
  ghost function Reported(stream: seq<Signal>, f: Name): int
    decreases |stream|
  {
    if stream == [] then 0
    else (if stream[0].TokenUsage? then Field(stream[0].usage.last, f) else 0) + Reported(stream[1..], f)
  }

  /** No growth is lost: of an honest stream every reported sample is recorded. */
  lemma NothingIsLost(stream: seq<Signal>, base: Breakdown, f: Name)
    requires Honest(stream, base)
    ensures Sum(Heard(NoBooks, stream).usage, f) == Reported(stream, f)
  {
    HonestGrowth(NoBooks, stream, base, f);
  }

  /** The books are up to date with total `base`. */
  ghost predicate UpTo(b: Books, base: Breakdown) {
    Balanced(b.usage, b.accepted, b.first) && (b.accepted.Some? ==> b.accepted.value.total == base)
  }

  lemma {:induction false} HonestGrowth(b: Books, stream: seq<Signal>, base: Breakdown, f: Name)
    requires UpTo(b, base) && Honest(stream, base)
    ensures Sum(Heard(b, stream).usage, f) == Sum(b.usage, f) + Reported(stream, f)
    decreases |stream|
  {
    if stream != [] {
      match stream[0]
      case TokenUsage(u) =>
        HonestSample(b, u, base, f);
        HonestGrowth(Observed(b, u), stream[1..], u.total, f);
      case ItemEnded(c) =>
        HonestGrowth(b.(pendingResume := b.pendingResume + {c}), stream[1..], base, f);
    }
  }

  lemma HonestSample(b: Books, u: Usage, base: Breakdown, f: Name)
    requires UpTo(b, base) && u.last.Keys == u.total.Keys == base.Keys
    requires forall g :: g in base ==> u.total[g] == base[g] + u.last[g]
    ensures UpTo(Observed(b, u), u.total)
    ensures Sum(Observed(b, u).usage, f) == Sum(b.usage, f) + Field(u.last, f)
  {
    var changed := TotalChanged(b.accepted, u);
    var trigger := TriggerOf(b.pendingResume);
    if changed.Some? { AcceptBalances(b.usage, b.accepted, b.first, trigger, u); }
    if changed == Some(true) {
      SumAfterGrowth(b.usage, f, trigger, Grown(b.usage, trigger, u.last).value[trigger]);
    } else {
      assert forall g :: g in base ==> u.last[g] == 0;
      assert b.accepted.Some? ==> u.total == base;
    }
  }

  // ------------------------------------------------------------- intervals

  type ByCategory = map<Name, seq<Interval>>

  ghost predicate CoveredIn(m: ByCategory, categories: set<Name>, t: int) {
    exists c :: c in categories && c in m && Covers(m[c], t)
  }

  /** The milliseconds covered by some interval of some category. */
  ghost function CoveredBy(m: ByCategory, categories: set<Name>): (r: set<int>)
    ensures forall t :: t in r <==> CoveredIn(m, categories, t)
  {
    if categories == {} then {}
    else
      var c :| c in categories;
      assert categories == (categories - {c}) + {c};
      (if c in m then Covered(m[c]) else {}) + CoveredBy(m, categories - {c})
  }

  /** The union over several categories, in any iteration order. */
  method UnionOver(m: ByCategory, categories: set<Name>) returns (n: int)
    ensures n == |CoveredBy(m, categories)|
  {
    var all: seq<Interval> := [];
    var todo := categories;
    while todo != {}
      invariant todo <= categories
      invariant forall t :: Covers(all, t) <==> CoveredIn(m, categories - todo, t)
      decreases todo
    {
      var c :| c in todo;
      ghost var before := categories - todo;
      if c in m {
        CoversConcat(all, m[c]);
        all := all + m[c];
      }
      todo := todo - {c};
      assert categories - todo == before + {c};
    }
    assert categories - {} == categories;
    n := IntervalUnionMs(all);
    SameMembers(all, CoveredBy(m, categories));
  }

  lemma CoversConcat(a: seq<Interval>, b: seq<Interval>)
    ensures forall t :: Covers(a + b, t) <==> Covers(a, t) || Covers(b, t)
  {
    var c := a + b;
    forall t ensures Covers(c, t) <==> Covers(a, t) || Covers(b, t) {
      if Covers(a, t) { var i :| 0 <= i < |a| && Contains(a[i], t); assert Contains(c[i], t); }
      if Covers(b, t) { var i :| 0 <= i < |b| && Contains(b[i], t); assert Contains(c[|a| + i], t); }
    }
  }

  function Min(a: int, b: int): int { if a <= b then a else b }

  function Max(a: int, b: int): int { if a <= b then b else a }

  /** The residuals need the turn's duration; the token total needs a growth sample. */
  datatype Report = Report(toolUnion: int, measuredUnion: int, nonToolResidual: Option<int>,
                           unattributedResidual: Option<int>, tokens: Option<Breakdown>)

  // ----------------------------------------------------------------- items

  /** An item notification after identity validation; timestamps may be missing. */
  datatype Item = Item(id: Name, kind: Name, category: Name, durationMs: Option<nat>)

  /** The interval a completed item contributes: start to end, or its reported duration. */
  function Lifetime(item: Item, completedAt: Option<nat>, started: Option<(nat, Name)>): (r: Option<Interval>)
    ensures r.Some? ==> WellFormed(r.value) && completedAt == Some(r.value.1)
    ensures r.Some? && started.Some? ==> r.value.0 == started.value.0
    ensures r.Some? && started.None? ==> item.durationMs == Some(r.value.1 - r.value.0)
  {
    match completedAt
    case None => None
    case Some(at) =>
      match started
      case Some((from, _)) => if at < from then None else Some((from, at))
      case None =>
        if item.durationMs.Some? && item.durationMs.value <= at then Some((at - item.durationMs.value, at))
        else None
  }

  function WithInterval(m: ByCategory, category: Name, i: Option<Interval>): ByCategory {
    if i.None? then m else m[category := (if category in m then m[category] else []) + [i.value]]
  }

  datatype ItemState =
    ItemState(starts: map<Name, (nat, Name)>, completed: set<Name>, intervals: ByCategory, pendingResume: set<Name>)

  /** An item that ends leaves the started ones, adds its lifetime to its category and may be what the model resumes
      after. */
  function Ended(s: ItemState, item: Item, completedAt: Option<nat>, resumes: bool): ItemState {
    var started := if item.id in s.starts then Some(s.starts[item.id]) else None;
    ItemState(s.starts - {item.id}, s.completed + {item.id},
              WithInterval(s.intervals, item.category, Lifetime(item, completedAt, started)),
              if resumes then s.pendingResume + {item.category} else s.pendingResume)
  }

  lemma FinishSizes(starts: map<Name, (nat, Name)>, completed: set<Name>, id: Name)
    requires id !in completed
    ensures |completed + {id}| == |completed| + 1
    ensures id in starts ==> |starts - {id}| == |starts| - 1
    ensures id !in starts ==> starts - {id} == starts
  {
    assert (starts - {id}).Keys == starts.Keys - {id};
  }

  class TurnTelemetry {
    const resumeTriggers: set<Name>
    const toolOrControl: set<Name>
    var starts: map<Name, (nat, Name)>
    var completed: set<Name>
    var intervals: ByCategory
    var usage: ByTrigger
    var pendingResume: set<Name>
    var degraded: bool
    var startedCount: nat
    var completedByNotification: nat
    var recoveredAtTerminal: nat
    var accepted: Option<Usage>
    ghost var first: Option<Usage>
    ghost var startedThenCompleted: nat

    ghost predicate ItemsBalance()
      reads this`starts, this`completed, this`startedCount, this`startedThenCompleted, this`completedByNotification,
            this`recoveredAtTerminal
    {
      && starts.Keys !! completed
      && |starts| + |completed| <= MAX_TRACKED_ITEMS
      && startedCount == |starts| + startedThenCompleted
      && startedThenCompleted <= |completed|
      && completedByNotification + recoveredAtTerminal == |completed|
    }

    ghost predicate TokensBalance()
      reads this`usage, this`accepted, this`first
    {
      Balanced(usage, accepted, first)
    }

    constructor (resumeTriggers: set<Name>, toolOrControl: set<Name>)
      ensures ItemsBalance() && TokensBalance() && accepted.None?
      ensures starts == map[] && completed == {} && intervals == map[]
    {
      this.resumeTriggers, this.toolOrControl := resumeTriggers, toolOrControl;
      starts, completed, intervals, usage, pendingResume := map[], {}, map[], map[], {};
      degraded, startedCount, completedByNotification, recoveredAtTerminal := false, 0, 0, 0;
      accepted, first, startedThenCompleted := None, None, 0;
    }

    method ObserveStart(item: Item, startedAt: Option<nat>)
      requires ItemsBalance()
      modifies this`starts, this`startedCount, this`degraded
      ensures ItemsBalance()
      ensures starts == if startedAt.Some? && item.id !in old(starts) && item.id !in completed
                           && |old(starts)| + |completed| < MAX_TRACKED_ITEMS
                        then old(starts)[item.id := (startedAt.value, item.kind)] else old(starts)
    {
      if startedAt.None? { degraded := true; return; }
      if item.id in starts {
        if starts[item.id] != (startedAt.value, item.kind) { degraded := true; }
        return;
      }
      if item.id in completed || |starts| + |completed| >= MAX_TRACKED_ITEMS { degraded := true; return; }
      starts := starts[item.id := (startedAt.value, item.kind)];
      startedCount := startedCount + 1;
    }

    method RecordInterval(item: Item, completedAt: Option<nat>, started: Option<(nat, Name)>)
      modifies this`intervals, this`degraded
      ensures intervals == WithInterval(old(intervals), item.category, Lifetime(item, completedAt, started))
    {
      if completedAt.None? { degraded := true; return; }
      var at := completedAt.value;
      match started {
        case Some((from, kind)) =>
          if kind != item.kind || at < from { degraded := true; }
          if from <= at { AddInterval(item.category, (from, at)); }
        case None =>
          degraded := true;
          if item.durationMs.Some? && item.durationMs.value <= at {
            AddInterval(item.category, (at - item.durationMs.value, at));
          }
      }
    }

    method AddInterval(category: Name, i: Interval)
      modifies this`intervals
      ensures intervals == WithInterval(old(intervals), category, Some(i))
    {
      var before := if category in intervals then intervals[category] else [];
      intervals := intervals[category := before + [i]];
    }

    /** Already ended, or over the cap on tracked items. */
    predicate Ignores(id: Name) reads this`starts, this`completed {
      id in completed || (id !in starts && |starts| + |completed| >= MAX_TRACKED_ITEMS)
    }

    /** An item ends, by notification or found in the terminal snapshot; only the first end counts. */
    method ObserveCompletion(item: Item, completedAt: Option<nat>, notified: bool)
      requires ItemsBalance()
      modifies this`starts, this`completed, this`intervals, this`pendingResume, this`degraded,
               this`completedByNotification, this`recoveredAtTerminal, this`startedThenCompleted
      ensures ItemsBalance()
      ensures Items() ==
        if old(Ignores(item.id)) then old(Items())
        else Ended(old(Items()), item, completedAt, notified && item.category in resumeTriggers)
    {
      if Ignores(item.id) {
        degraded := degraded || item.id !in completed;
        return;
      }
      var started := if item.id in starts then Some(starts[item.id]) else None;
      RecordInterval(item, completedAt, started);
      if notified && item.category in resumeTriggers { pendingResume := pendingResume + {item.category}; }
      Finish(item.id, notified);
    }

    function Items(): ItemState reads this`starts, this`completed, this`intervals, this`pendingResume {
      ItemState(starts, completed, intervals, pendingResume)
    }

    /** Move an id from started to completed and count how it ended. */
    method Finish(id: Name, notified: bool)
      requires ItemsBalance() && id !in completed && (id in starts || |starts| + |completed| < MAX_TRACKED_ITEMS)
      modifies this`starts, this`completed, this`degraded, this`completedByNotification, this`recoveredAtTerminal,
               this`startedThenCompleted
      ensures ItemsBalance() && completed == old(completed) + {id} && starts == old(starts) - {id}
    {
      FinishSizes(starts, completed, id);
      if id in starts { startedThenCompleted := startedThenCompleted + 1; }
      completed := completed + {id};
      starts := starts - {id};
      if notified { completedByNotification := completedByNotification + 1; }
      else { recoveredAtTerminal := recoveredAtTerminal + 1; degraded := true; }
    }

    /** One token-usage notification.  A rejected one changes nothing but the degradation flag; over
        any stream the recorded growth telescopes to what the cumulative totals say (`Balanced`). */
    method ObserveUsage(current: Usage) returns (ok: bool)
      requires TokensBalance()
      modifies this`usage, this`pendingResume, this`degraded, this`accepted, this`first
      ensures TokensBalance()
      ensures ok <==> TotalChanged(old(accepted), current).Some?
      ensures TokenBooks() == Observed(old(TokenBooks()), current)
    {
      var changed := TotalChanged(accepted, current);
      if changed.None? { degraded := true; return false; }
      AcceptBalances(usage, accepted, first, TriggerOf(pendingResume), current);
      if accepted.None? { first := Some(current); }
      if changed.value { RecordGrowth(current.last); }
      accepted := Some(current);
      ok := true;
    }

    ghost function TokenBooks(): Books reads this`usage, this`accepted, this`first, this`pendingResume {
      Books(usage, accepted, first, pendingResume)
    }

    /** `observe_usage_growth`: file one sample and forget what triggered it. */
    method RecordGrowth(sample: Breakdown)
      requires Grown(usage, TriggerOf(pendingResume), sample).Some?
      modifies this`usage, this`pendingResume
      ensures pendingResume == {} && Some(usage) == Grown(old(usage), TriggerOf(old(pendingResume)), sample)
    {
      usage := Grown(usage, TriggerOf(pendingResume), sample).value;
      pendingResume := {};
    }

    /** `usage_growth_total`: the growth of all resume triggers added up, in any order. */
    method GrowthTotal() returns (total: Option<Breakdown>)
      requires TokensBalance()
      ensures total.None? <==> usage == map[]
      ensures total.Some? ==> accepted.Some? && total.value.Keys == accepted.value.total.Keys
      ensures total.Some? ==> forall f :: f in total.value ==> total.value[f] == Sum(usage, f)
    {
      total := None;
      var todo := usage.Keys;
      ghost var done: ByTrigger := map[];
      while todo != {}
        invariant todo <= usage.Keys && done == usage - todo
        invariant total.None? <==> done == map[]
        invariant total.Some? ==> accepted.Some? && total.value.Keys == accepted.value.total.Keys
        invariant total.Some? ==> forall f :: f in total.value ==> total.value[f] == Sum(done, f)
      {
        var k :| k in todo;
        forall f ensures Sum(done[k := usage[k]], f) == Sum(done, f) + Field(usage[k], f) {
          SumAfterGrowth(done, f, k, usage[k]);
        }
        total := AddBreakdown(total, usage[k]);
        todo, done := todo - {k}, done[k := usage[k]];
      }
      assert usage - {} == usage;
    }

    /** Milliseconds covered by tools or control, and by anything measured. */
    method Unions() returns (toolUnion: nat, measuredUnion: nat)
      ensures toolUnion == |CoveredBy(intervals, toolOrControl)|
      ensures measuredUnion == |CoveredBy(intervals, intervals.Keys)|
      ensures toolUnion <= measuredUnion
    {
      toolUnion := UnionOver(intervals, toolOrControl);
      measuredUnion := UnionOver(intervals, intervals.Keys);
      ghost var tools, measured := CoveredBy(intervals, toolOrControl), CoveredBy(intervals, intervals.Keys);
      forall t | t in tools ensures t in measured { assert CoveredIn(intervals, toolOrControl, t); }
      SubsetSize(tools, measured);
    }

    /** The unions count each covered millisecond once; the residuals are what is left of the turn, never negative; the
        token total is the conserved one.  Tool time is part of measured time, so what is left unattributed never
        exceeds what is left after tools. */
    method Summary(duration: Option<nat>) returns (r: Report)
      requires TokensBalance()
      ensures r.toolUnion == |CoveredBy(intervals, toolOrControl)|
      ensures r.measuredUnion == |CoveredBy(intervals, intervals.Keys)|
      ensures r.toolUnion <= r.measuredUnion
      ensures duration.None? ==> r.nonToolResidual.None? && r.unattributedResidual.None?
      ensures duration.Some? ==>
        && r.nonToolResidual == Some(if r.toolUnion < duration.value then duration.value - r.toolUnion else 0)
        && r.unattributedResidual ==
             Some(if r.measuredUnion < duration.value then duration.value - r.measuredUnion else 0)
        && 0 <= r.unattributedResidual.value <= r.nonToolResidual.value <= duration.value
      ensures r.tokens.None? <==> usage == map[]
      ensures r.tokens.Some? ==>
        && accepted.Some? && first.Some? && r.tokens.value.Keys == accepted.value.total.Keys
        && first.value.total.Keys == first.value.last.Keys == r.tokens.value.Keys
        && forall f :: f in r.tokens.value ==>
             r.tokens.value[f] + first.value.total[f] == accepted.value.total[f] + first.value.last[f]
    {
      var toolUnion, measuredUnion := Unions();
      var nonTool, unattributed: Option<int> := None, None;
      if duration.Some? {
        var whole := duration.value;
        nonTool := Some(Max(0, whole - Min(whole, toolUnion)));
        unattributed := Some(Max(0, whole - Min(whole, measuredUnion)));
      }
      var tokens := GrowthTotal();
      r := Report(toolUnion, measuredUnion, nonTool, unattributed, tokens);
    }
  }
}
