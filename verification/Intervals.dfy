/** Interval unions of item lifecycles, measured against the milliseconds they cover. */
module Intervals {

  type Interval = (int, int)

  predicate WellFormed(i: Interval) { 0 <= i.0 <= i.1 }

  predicate Contains(i: Interval, t: int) { WellFormed(i) && i.0 <= t < i.1 }

  /** Millisecond `t` lies in some well-formed interval of `xs`. */
  ghost predicate Covers(xs: seq<Interval>, t: int) { exists i :: 0 <= i < |xs| && Contains(xs[i], t) }

  /** The milliseconds from `a` up to `b`. */
  ghost function Range(a: int, b: int): (r: set<int>)
    ensures forall t :: t in r <==> a <= t < b
    ensures |r| == if a <= b then b - a else 0
    decreases b - a
  {
    if a < b then Range(a, b - 1) + {b - 1} else {}
  }

  ghost function Covered(xs: seq<Interval>): (r: set<int>)
    ensures forall t :: t in r <==> Covers(xs, t)
    decreases |xs|
  {
    if xs == [] then {}
    else
      var n := |xs| - 1;
      CoversPush(xs[..n], xs[n]);
      assert xs == xs[..n] + [xs[n]];
      Covered(xs[..n]) + (if WellFormed(xs[n]) then Range(xs[n].0, xs[n].1) else {})
  }

  lemma SameMembers(xs: seq<Interval>, s: set<int>)
    requires forall t :: Covers(xs, t) <==> t in s
    ensures Covered(xs) == s
  {
    var c := Covered(xs);
    forall t ensures t in c <==> t in s { assert Covers(xs, t) <==> t in c; }
  }

  lemma SubsetSize(a: set<int>, b: set<int>)
    requires a <= b
    ensures |a| <= |b|
  {
    assert b == a + (b - a);
  }

  // ---------------------------------------------------------------- sorting

  predicate Before(a: Interval, b: Interval) { a.0 < b.0 || (a.0 == b.0 && a.1 <= b.1) }

  predicate InOrder(xs: seq<Interval>) { forall i, j :: 0 <= i < j < |xs| ==> Before(xs[i], xs[j]) }

  function Insert(x: Interval, xs: seq<Interval>): (r: seq<Interval>)
    requires InOrder(xs)
    ensures InOrder(r) && forall y :: y in r <==> y == x || y in xs
  {
    if xs == [] then [x]
    else if Before(x, xs[0]) then [x] + xs
    else
      var rest := Insert(x, xs[1..]);
      assert forall j :: 0 <= j < |rest| ==> rest[j] in rest && Before(xs[0], rest[j]);
      [xs[0]] + rest
  }

  /** The well-formed intervals, in `sorted` order. */
  function Ordered(xs: seq<Interval>): (r: seq<Interval>)
    ensures InOrder(r)
  {
    if xs == [] then [] else
      var rest := Ordered(xs[1..]);
      if WellFormed(xs[0]) then Insert(xs[0], rest) else rest
  }

  lemma {:induction false} OrderedKeeps(xs: seq<Interval>, x: Interval)
    ensures x in Ordered(xs) <==> x in xs && WellFormed(x)
  {
    if xs != [] {
      OrderedKeeps(xs[1..], x);
    }
  }

  lemma OrderedCovers(xs: seq<Interval>)
    ensures Covered(Ordered(xs)) == Covered(xs)
  {
    var ys := Ordered(xs);
    forall t ensures Covers(ys, t) <==> Covers(xs, t) {
      if Covers(ys, t) {
        var i :| 0 <= i < |ys| && Contains(ys[i], t);
        OrderedKeeps(xs, ys[i]);
        var j :| 0 <= j < |xs| && xs[j] == ys[i];
        assert Covers(xs, t);
      }
      if Covers(xs, t) {
        var i :| 0 <= i < |xs| && Contains(xs[i], t);
        OrderedKeeps(xs, xs[i]);
        var j :| 0 <= j < |ys| && ys[j] == xs[i];
        assert Covers(ys, t);
      }
    }
    SameMembers(ys, Covered(xs));
  }

  // ------------------------------------------------------------------ sweep

  /** The closed part `done` and the open run [start, end) are what the prefix covers. */
  ghost predicate Swept(prefix: seq<Interval>, done: set<int>, total: int, start: int, end: int) {
    && start <= end && |done| == total
    && (forall t :: t in done ==> t < start)
    && (forall t :: Covers(prefix, t) <==> t in done || start <= t < end)
  }

  lemma CoversPush(xs: seq<Interval>, x: Interval)
    ensures forall t :: Covers(xs + [x], t) <==> Covers(xs, t) || Contains(x, t)
  {
    var ys := xs + [x];
    forall t ensures Covers(ys, t) <==> Covers(xs, t) || Contains(x, t) {
      if Covers(xs, t) {
        var i :| 0 <= i < |xs| && Contains(xs[i], t);
        assert Contains(ys[i], t);
      }
      if Contains(x, t) { assert Contains(ys[|xs|], t); }
    }
  }

  lemma SweepSize(prefix: seq<Interval>, done: set<int>, total: int, start: int, end: int)
    requires Swept(prefix, done, total, start, end)
    ensures |Covered(prefix)| == total + end - start
    ensures |done + Range(start, end)| == total + end - start
  {
    var run := Range(start, end);
    assert done !! run;
    SameMembers(prefix, done + run);
  }

  /** The next interval touches the open run and extends it. */
  lemma SweepExtends(prefix: seq<Interval>, done: set<int>, total: int, start: int, end: int, x: Interval)
    requires Swept(prefix, done, total, start, end) && WellFormed(x) && start <= x.0 <= end
    ensures Swept(prefix + [x], done, total, start, if end < x.1 then x.1 else end)
  {
    CoversPush(prefix, x);
  }

  /** The next interval lies beyond the open run, which is closed. */
  lemma SweepCloses(prefix: seq<Interval>, done: set<int>, total: int, start: int, end: int, x: Interval)
    requires Swept(prefix, done, total, start, end) && WellFormed(x) && end < x.0
    ensures Swept(prefix + [x], done + Range(start, end), total + end - start, x.0, x.1)
  {
    CoversPush(prefix, x);
    SweepSize(prefix, done, total, start, end);
  }

  method Sweep(ordered: seq<Interval>) returns (n: int)
    requires InOrder(ordered) && ordered != [] && forall i :: 0 <= i < |ordered| ==> WellFormed(ordered[i])
    ensures n == |Covered(ordered)|
  {
    var total := 0;
    var start, end := ordered[0].0, ordered[0].1;
    ghost var done: set<int> := {};
    CoversPush([], ordered[0]);
    assert ordered[..1] == [] + [ordered[0]];
    for k := 1 to |ordered|
      invariant Swept(ordered[..k], done, total, start, end)
      invariant exists m :: 0 <= m < k && start == ordered[m].0
    {
      var next := ordered[k];
      assert ordered[..k + 1] == ordered[..k] + [next];
      if next.0 <= end {
        SweepExtends(ordered[..k], done, total, start, end, next);
        end := if end < next.1 then next.1 else end;
      } else {
        SweepCloses(ordered[..k], done, total, start, end, next);
        done := done + Range(start, end);
        total := total + (end - start);
        start, end := next.0, next.1;
      }
    }
    assert ordered[..|ordered|] == ordered;
    SweepSize(ordered, done, total, start, end);
    n := total + (end - start);
  }

  /** `_interval_union_ms`: the number of milliseconds covered by at least one interval. */
  method IntervalUnionMs(xs: seq<Interval>) returns (n: int)
    ensures n == |Covered(xs)|
  {
    var ordered := Ordered(xs);
    OrderedCovers(xs);
    if ordered == [] { return 0; }
    forall i | 0 <= i < |ordered| ensures WellFormed(ordered[i]) { OrderedKeeps(xs, ordered[i]); }
    n := Sweep(ordered);
  }
}
