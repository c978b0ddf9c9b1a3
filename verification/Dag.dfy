/** Dependency edges of the fact graph, chains through them, and the two traversals the graph
    relies on: the reverse closure that a cascade revokes and the breadth-first context walk. */
module Dag {
  import opened Wrappers

  type Id = Name

  /** The empty id, which callers may pass and which names nothing. */
  const BLANK: Id := 0

  /** Active facts and their direct predecessors; an id outside the map has no file. */
  type Edges = map<Id, seq<Id>>

  function Preds(e: Edges, x: Id): seq<Id> { if x in e then e[x] else [] }

  /** A chain walks from a fact to predecessors; every step leaves an active fact. */
  ghost predicate Chain(e: Edges, p: seq<Id>) {
    |p| >= 1 && forall i :: 0 <= i < |p| - 1 ==> Link(e, p, i)
  }

  ghost predicate Link(e: Edges, p: seq<Id>, i: nat)
    requires i < |p| - 1
  {
    p[i] in e && p[i + 1] in e[p[i]]
  }

  ghost predicate ChainFrom(e: Edges, x: Id, p: seq<Id>, y: Id) {
    Chain(e, p) && p[0] == x && p[|p| - 1] == y
  }

  /** `x` depends on `y`, directly, transitively or by being it. */
  ghost predicate Reaches(e: Edges, x: Id, y: Id) {
    exists p :: ChainFrom(e, x, p, y)
  }

  lemma ReachesSelf(e: Edges, x: Id)
    ensures Reaches(e, x, x)
  {
    assert ChainFrom(e, x, [x], x);
  }

  lemma ExtendChain(e: Edges, x: Id, z: Id, p: seq<Id>, y: Id)
    requires x in e && z in e[x] && ChainFrom(e, z, p, y)
    ensures ChainFrom(e, x, [x] + p, y)
  {
    var q := [x] + p;
    forall i | 0 <= i < |q| - 1 ensures Link(e, q, i) {
      if i > 0 { assert Link(e, p, i - 1); }
    }
  }

  lemma ReachesStep(e: Edges, x: Id, z: Id, y: Id)
    requires x in e && z in e[x] && Reaches(e, z, y)
    ensures Reaches(e, x, y)
  {
    var p :| ChainFrom(e, z, p, y);
    ExtendChain(e, x, z, p, y);
  }

  lemma ChainTail(e: Edges, p: seq<Id>)
    requires Chain(e, p) && |p| >= 2
    ensures Chain(e, p[1..]) && p[0] in e && p[1] in e[p[0]]
  {
    assert Link(e, p, 0);
    forall i | 0 <= i < |p[1..]| - 1 ensures Link(e, p[1..], i) {
      assert Link(e, p, i + 1);
    }
  }

  /** A set closed under taking predecessors contains everything its members reach. */
  lemma {:induction false} DownwardClosed(e: Edges, s: set<Id>, x: Id, p: seq<Id>, y: Id)
    requires x in s && ChainFrom(e, x, p, y)
    requires forall z, w :: z in s && z in e && w in e[z] ==> w in s
    ensures y in s
    decreases |p|
  {
    if |p| >= 2 {
      ChainTail(e, p);
      DownwardClosed(e, s, p[1], p[1..], y);
    }
  }

  /** A set closed under taking dependents contains everything that reaches a member. */
  lemma {:induction false} UpwardClosed(e: Edges, s: set<Id>, x: Id, p: seq<Id>, y: Id)
    requires y in s && ChainFrom(e, x, p, y)
    requires forall z, w :: z in e && w in e[z] && w in s ==> z in s
    ensures x in s
    decreases |p|
  {
    if |p| >= 2 {
      ChainTail(e, p);
      UpwardClosed(e, s, p[1], p[1..], y);
    }
  }

  // ------------------------------------------------------------- acyclicity

  ghost predicate Ranked(e: Edges, rank: map<Id, nat>) {
    forall x :: x in e ==> RankedAt(e[x], rank, x)
  }

  ghost predicate RankedAt(preds: seq<Id>, rank: map<Id, nat>, x: Id) {
    x in rank && forall y :: y in preds ==> y in rank && rank[y] < rank[x]
  }

  lemma {:induction false} RankFalls(e: Edges, rank: map<Id, nat>, x: Id, p: seq<Id>, y: Id)
    requires Ranked(e, rank) && ChainFrom(e, x, p, y) && |p| >= 2
    ensures x in rank && y in rank && rank[y] < rank[x]
    decreases |p|
  {
    ChainTail(e, p);
    assert RankedAt(e[p[0]], rank, p[0]);
    if |p| > 2 { RankFalls(e, rank, p[1], p[1..], y); }
  }

  /** No chain of at least one step leads from an id back to itself. */
  ghost predicate Acyclic(e: Edges) { forall x, p :: ChainFrom(e, x, p, x) ==> |p| == 1 }

  /** A ranked graph has no cycle ... */
  lemma RankedIsAcyclic(e: Edges, rank: map<Id, nat>)
    requires Ranked(e, rank)
    ensures Acyclic(e)
  {
    forall x, p | ChainFrom(e, x, p, x) ensures |p| == 1 {
      if |p| >= 2 { RankFalls(e, rank, x, p, x); }
    }
  }

  /** What `x` depends on, itself included, among `u`. */
  ghost function Ancestry(e: Edges, u: set<Id>, x: Id): set<Id> { set y | y in u && Reaches(e, x, y) }

  /** ... and a graph without a cycle is ranked, by how much each fact depends on. */
  ghost function RankOf(e: Edges): (rank: map<Id, nat>)
    ensures Acyclic(e) ==> Ranked(e, rank)
  {
    var u := e.Keys + Targets(e);
    if Acyclic(e) then AncestryRanks(e, u); map x | x in u :: |Ancestry(e, u, x)|
    else map[]
  }

  lemma AncestryRanks(e: Edges, u: set<Id>)
    requires Acyclic(e) && u == e.Keys + Targets(e)
    ensures Ranked(e, map x | x in u :: |Ancestry(e, u, x)|)
  {
    var rank := map x | x in u :: |Ancestry(e, u, x)|;
    forall x | x in e ensures RankedAt(e[x], rank, x) {
      forall y | y in e[x] ensures y in rank && rank[y] < rank[x] {
        TargetsContain(e, x, y);
        AncestryShrinks(e, u, x, y);
      }
    }
  }

  /** On an acyclic graph a predecessor depends on strictly less. */
  lemma AncestryShrinks(e: Edges, u: set<Id>, x: Id, y: Id)
    requires Acyclic(e) && x in e && y in e[x] && x in u
    ensures |Ancestry(e, u, y)| < |Ancestry(e, u, x)|
  {
    var a, b := Ancestry(e, u, y), Ancestry(e, u, x);
    ReachesSelf(e, x);
    if Reaches(e, y, x) {
      var p :| ChainFrom(e, y, p, x);
      ExtendChain(e, x, y, p, x);
      assert false;
    }
    forall z | z in a ensures z in b { ReachesStep(e, x, y, z); }
    assert x in b - a && b == a + (b - a);
  }

  // ------------------------------------------------------------ descendants

  /** The reverse graph, built once from one directory listing. */
  method ReverseEdges(e: Edges, listing: seq<Id>) returns (rev: map<Id, seq<Id>>)
    requires forall x :: x in listing <==> x in e
    ensures forall y, x :: (y in rev && x in rev[y]) <==> (x in e && y in e[x])
  {
    rev := map[];
    for i := 0 to |listing|
      invariant forall y, x :: (y in rev && x in rev[y]) <==> (x in listing[..i] && y in e[x])
    {
      var x := listing[i];
      assert x in listing;
      var preds := e[x];
      assert listing[..i + 1] == listing[..i] + [x];
      for j := 0 to |preds|
        invariant forall y, z :: (y in rev && z in rev[y]) <==>
          ((z in listing[..i] && y in e[z]) || (z == x && y in preds[..j]))
      {
        assert preds[..j + 1] == preds[..j] + [preds[j]];
        var before := if preds[j] in rev then rev[preds[j]] else [];
        rev := rev[preds[j] := before + [x]];
      }
      assert preds[..|preds|] == preds;
    }
    assert listing[..|listing|] == listing;
  }

  /** The state of the depth-first walk: what was found, and that everything found which is not
      waiting on the stack has had its dependents added. */
  ghost predicate Found(e: Edges, root: Id, out: seq<Id>, seen: set<Id>) {
    && Distinct(out) && root !in out
    && (forall x :: x in seen <==> x == root || x in out)
    && (forall x :: x in out ==> x in e && Reaches(e, x, root))
  }

  ghost predicate Expanded(e: Edges, seen: set<Id>, waiting: seq<Id>) {
    forall z, w :: z in e && w in e[z] && w in seen && w !in waiting ==> z in seen
  }

  /** Push the dependents of one fact that were not seen before. */
  method PushDependents(e: Edges, root: Id, cur: Id, next: seq<Id>, out0: seq<Id>, seen0: set<Id>)
      returns (out: seq<Id>, seen: set<Id>, pushed: seq<Id>)
    requires Found(e, root, out0, seen0) && Reaches(e, cur, root)
    requires forall x :: x in next ==> x in e && cur in e[x]
    ensures Found(e, root, out, seen)
    ensures seen == seen0 + (set x | x in next)
    ensures forall x :: x in pushed <==> x in seen && x !in seen0
    ensures seen == seen0 ==> pushed == []
  {
    out, seen, pushed := out0, seen0, [];
    for i := 0 to |next|
      invariant Found(e, root, out, seen)
      invariant seen == seen0 + (set x | x in next[..i])
      invariant forall x :: x in pushed <==> x in seen && x !in seen0
      invariant seen == seen0 ==> pushed == []
    {
      var x := next[i];
      assert next[..i + 1] == next[..i] + [x];
      assert x in next;
      if x !in seen {
        ReachesStep(e, x, cur, root);
        out, seen, pushed := out + [x], seen + {x}, pushed + [x];
      }
    }
    assert next[..|next|] == next;
  }

  /** Exactly the facts that transitively depend on `root`, each once. */
  method Descendants(e: Edges, listing: seq<Id>, root: Id) returns (out: seq<Id>)
    requires forall x :: x in listing <==> x in e
    ensures Distinct(out) && root !in out
    ensures forall x :: x in out <==> x != root && x in e && Reaches(e, x, root)
  {
    var rev := ReverseEdges(e, listing);
    out := [];
    var seen := {root};
    var frontier := [root];
    ReachesSelf(e, root);
    while frontier != []
      invariant Found(e, root, out, seen) && Expanded(e, seen, frontier)
      invariant forall x :: x in frontier ==> x in seen
      decreases e.Keys + {root} - seen, |frontier|
    {
      var cur := frontier[|frontier| - 1];
      var rest := frontier[..|frontier| - 1];
      assert frontier == rest + [cur];
      var next := if cur in rev then rev[cur] else [];
      ghost var seen0 := seen;
      var pushed;
      out, seen, pushed := PushDependents(e, root, cur, next, out, seen);
      ghost var was := frontier;
      frontier := rest + pushed;
      forall z, w | z in e && w in e[z] && w in seen && w !in frontier ensures z in seen {
        if w == cur {
          assert w in rev && z in rev[w];
        } else {
          assert w in seen0 && w !in was;
        }
      }
      if seen != seen0 {
        assert e.Keys + {root} - seen < e.Keys + {root} - seen0;
      }
    }
    forall x | x != root && x in e && Reaches(e, x, root) ensures x in out {
      var p :| ChainFrom(e, x, p, root);
      UpwardClosed(e, seen, x, p, root);
    }
  }

  // ---------------------------------------------------- breadth-first context

  /** `x` is at most `n` predecessor hops from the roots. */
  ghost predicate Near(e: Edges, roots: set<Id>, n: nat, x: Id) {
    if n == 0 then x in roots
    else Near(e, roots, n - 1, x) || exists z :: Near(e, roots, n - 1, z) && z in e && x in e[z]
  }

  lemma {:induction false} NearGrows(e: Edges, roots: set<Id>, m: nat, n: nat, x: Id)
    requires m <= n && Near(e, roots, m, x)
    ensures Near(e, roots, n, x)
    decreases n - m
  {
    if m < n { NearGrows(e, roots, m, n - 1, x); }
  }

  /** `Near` is exactly what chains of that length reach. */
  lemma {:induction false} ChainIsNear(e: Edges, roots: set<Id>, r: Id, p: seq<Id>, x: Id)
    requires r in roots && ChainFrom(e, r, p, x)
    ensures Near(e, roots, |p| - 1, x)
    decreases |p|
  {
    if |p| >= 2 {
      var q := p[..|p| - 1];
      var z := q[|q| - 1];
      forall i | 0 <= i < |q| - 1 ensures Link(e, q, i) { assert Link(e, p, i); }
      ChainIsNear(e, roots, r, q, z);
      assert Link(e, p, |p| - 2);
    }
  }

  lemma {:induction false} NearHasChain(e: Edges, roots: set<Id>, n: nat, x: Id) returns (r: Id, p: seq<Id>)
    requires Near(e, roots, n, x)
    ensures r in roots && ChainFrom(e, r, p, x) && |p| - 1 <= n
  {
    if n == 0 {
      r, p := x, [x];
    } else if Near(e, roots, n - 1, x) {
      r, p := NearHasChain(e, roots, n - 1, x);
    } else {
      var z :| Near(e, roots, n - 1, z) && z in e && x in e[z];
      var q;
      r, q := NearHasChain(e, roots, n - 1, z);
      p := q + [x];
      forall i | 0 <= i < |p| - 1 ensures Link(e, p, i) {
        if i < |q| - 1 { assert Link(e, q, i); }
      }
    }
  }

  /** The shortest chain from a root to `x` has `k` hops. */
  ghost predicate AtDistance(e: Edges, roots: set<Id>, x: Id, k: nat) {
    && (exists r, p :: r in roots && ChainFrom(e, r, p, x) && |p| - 1 == k)
    && (forall r, p :: r in roots && ChainFrom(e, r, p, x) ==> k <= |p| - 1)
  }

  lemma FirstLevelIsDistance(e: Edges, roots: set<Id>, x: Id, k: nat)
    requires Near(e, roots, k, x) && (k > 0 ==> !Near(e, roots, k - 1, x))
    ensures AtDistance(e, roots, x, k)
  {
    forall r, p | r in roots && ChainFrom(e, r, p, x) ensures k <= |p| - 1 {
      ChainIsNear(e, roots, r, p, x);
      if |p| - 1 < k { NearGrows(e, roots, |p| - 1, k - 1, x); }
    }
    var r, p := NearHasChain(e, roots, k, x);
  }

  predicate Deeper(k: nat, depth: Option<nat>) { depth.None? || k < depth.value }

  datatype Visit = Visit(id: Id, dist: nat)

  ghost predicate Listed(all: seq<Visit>, x: Id) { exists i :: 0 <= i < |all| && all[i].id == x }

  /** Each id is discovered once, and never after a farther one. */
  ghost predicate Ordered(all: seq<Visit>) {
    forall i, j :: 0 <= i < j < |all| ==> all[i].id != all[j].id && all[i].dist <= all[j].dist
  }

  ghost predicate OnLevel(e: Edges, roots: set<Id>, depth: Option<nat>, v: Visit) {
    && Near(e, roots, v.dist, v.id)
    && (v.dist > 0 ==> !Near(e, roots, v.dist - 1, v.id) && Deeper(v.dist - 1, depth))
  }

  ghost predicate Opened(e: Edges, depth: Option<nat>, all: seq<Visit>, v: Visit) {
    v.id in e && Deeper(v.dist, depth) ==> forall y :: y in e[v.id] ==> Listed(all, y)
  }

  /** The discovery sequence of the walk; its first `h` entries have been expanded. */
  ghost predicate Walk(e: Edges, roots: set<Id>, depth: Option<nat>, all: seq<Visit>, h: nat) {
    && h <= |all|
    && Ordered(all)
    && (forall i :: h <= i < |all| ==> all[i].dist <= all[h].dist + 1)
    && (forall i :: 0 <= i < |all| ==> OnLevel(e, roots, depth, all[i]))
    && (forall x :: x in roots ==> Listed(all, x))
    && (forall i :: 0 <= i < h ==> Opened(e, depth, all, all[i]))
  }

  /** When everything nearer than `k` has been expanded, everything within `k` is discovered. */
  lemma {:induction false} LevelDiscovered(e: Edges, roots: set<Id>, depth: Option<nat>, all: seq<Visit>, h: nat,
                                           k: nat, x: Id)
    requires Walk(e, roots, depth, all, h)
    requires k == 0 || Deeper(k - 1, depth)
    requires forall i :: h <= i < |all| ==> k <= all[i].dist
    requires Near(e, roots, k, x)
    ensures Listed(all, x)
    decreases k
  {
    if k > 0 {
      if Near(e, roots, k - 1, x) {
        LevelDiscovered(e, roots, depth, all, h, k - 1, x);
      } else {
        var z :| Near(e, roots, k - 1, z) && z in e && x in e[z];
        LevelDiscovered(e, roots, depth, all, h, k - 1, z);
        var i :| 0 <= i < |all| && all[i].id == z;
        assert OnLevel(e, roots, depth, all[i]);
        if all[i].dist > k - 1 { NearGrows(e, roots, k - 1, all[i].dist - 1, z); }
        assert Opened(e, depth, all, all[i]);
      }
    }
  }

  /** The first occurrences in `ids` of what is not in `known`, in order. */
  function FirstSeen(ids: seq<Id>, known: set<Id>): seq<Id> {
    if ids == [] then []
    else
      var n := |ids| - 1;
      var before := FirstSeen(ids[..n], known);
      if ids[n] in known || ids[n] in ids[..n] then before else before + [ids[n]]
  }

  lemma {:induction false} FirstSeenMembers(ids: seq<Id>, known: set<Id>)
    ensures Distinct(FirstSeen(ids, known))
    ensures forall x :: x in FirstSeen(ids, known) <==> x in ids && x !in known
  {
    if ids != [] {
      FirstSeenMembers(ids[..|ids| - 1], known);
      assert ids == ids[..|ids| - 1] + [ids[|ids| - 1]];
    }
  }

  /** Predecessors not discovered before, in order and without repetition. */
  method NewPreds(preds: seq<Id>, discovered0: set<Id>) returns (newly: seq<Id>, discovered: set<Id>)
    ensures newly == FirstSeen(preds, discovered0)
    ensures Distinct(newly) && forall x :: x in newly <==> x in preds && x !in discovered0
    ensures discovered == discovered0 + (set x | x in preds)
  {
    newly, discovered := [], discovered0;
    for i := 0 to |preds|
      invariant newly == FirstSeen(preds[..i], discovered0)
      invariant Distinct(newly) && forall x :: x in newly <==> x in preds[..i] && x !in discovered0
      invariant discovered == discovered0 + (set x | x in preds[..i])
    {
      assert preds[..i + 1] == preds[..i] + [preds[i]];
      assert preds[..i + 1][..i] == preds[..i];
      if preds[i] !in discovered {
        newly, discovered := newly + [preds[i]], discovered + {preds[i]};
      }
    }
    assert preds[..|preds|] == preds;
  }

  function Tagged(ids: seq<Id>, k: nat): (r: seq<Visit>)
    ensures |r| == |ids| && forall i :: 0 <= i < |ids| ==> r[i] == Visit(ids[i], k)
  {
    seq(|ids|, i requires 0 <= i < |ids| => Visit(ids[i], k))
  }

  lemma ListedInMore(all: seq<Visit>, newly: seq<Id>, k: nat)
    ensures forall x :: Listed(all, x) ==> Listed(all + Tagged(newly, k), x)
    ensures forall y :: y in newly ==> Listed(all + Tagged(newly, k), y)
  {
    var more := all + Tagged(newly, k);
    forall x | Listed(all, x) ensures Listed(more, x) {
      var i :| 0 <= i < |all| && all[i].id == x;
      assert more[i].id == x;
    }
    forall y | y in newly ensures Listed(more, y) {
      var i :| 0 <= i < |newly| && newly[i] == y;
      assert more[|all| + i].id == y;
    }
  }

  /** What expanding entry `h` enqueues: undiscovered predecessors, all of them, if the bound allows. */
  ghost predicate Expands(e: Edges, depth: Option<nat>, all: seq<Visit>, h: nat, newly: seq<Id>)
    requires h < |all|
  {
    && Distinct(newly) && (newly != [] ==> all[h].id in e && Deeper(all[h].dist, depth))
    && (forall y :: y in newly ==> y in e[all[h].id] && !Listed(all, y))
    && (all[h].id in e && Deeper(all[h].dist, depth) ==> forall y :: y in e[all[h].id] ==> y in newly || Listed(all, y))
  }

  /** New entries are on the next level ... */
  lemma AdvanceOnLevel(e: Edges, roots: set<Id>, depth: Option<nat>, all: seq<Visit>, h: nat, newly: seq<Id>, y: Id)
    requires Walk(e, roots, depth, all, h) && h < |all| && Expands(e, depth, all, h, newly) && y in newly
    ensures OnLevel(e, roots, depth, Visit(y, all[h].dist + 1))
  {
    assert OnLevel(e, roots, depth, all[h]);
    if Near(e, roots, all[h].dist, y) { LevelDiscovered(e, roots, depth, all, h, all[h].dist, y); }
  }

  /** ... keep the discovery order ... */
  lemma AdvanceOrdered(all: seq<Visit>, h: nat, newly: seq<Id>)
    requires Ordered(all) && h < |all| && Distinct(newly) && forall y :: y in newly ==> !Listed(all, y)
    requires forall i :: h <= i < |all| ==> all[i].dist <= all[h].dist + 1
    ensures Ordered(all + Tagged(newly, all[h].dist + 1))
  {
    var more := all + Tagged(newly, all[h].dist + 1);
    forall i, j | 0 <= i < j < |more| ensures more[i].id != more[j].id && more[i].dist <= more[j].dist {
      if i < |all| <= j {
        assert newly[j - |all|] in newly;
        assert Listed(all, more[i].id);
      }
    }
  }

  /** ... and leave the head open to all its predecessors. */
  lemma AdvanceOpened(e: Edges, depth: Option<nat>, all: seq<Visit>, h: nat, newly: seq<Id>, i: nat)
    requires h < |all| && Expands(e, depth, all, h, newly) && i <= h
    requires forall k :: 0 <= k < h ==> Opened(e, depth, all, all[k])
    ensures Opened(e, depth, all + Tagged(newly, all[h].dist + 1), all[i])
  {
    ListedInMore(all, newly, all[h].dist + 1);
    if i < h { assert Opened(e, depth, all, all[i]); }
  }

  /** Expanding the head of the queue keeps the walk a breadth-first one. */
  lemma WalkAdvances(e: Edges, roots: set<Id>, depth: Option<nat>, all: seq<Visit>, h: nat, newly: seq<Id>)
    requires Walk(e, roots, depth, all, h) && h < |all| && Expands(e, depth, all, h, newly)
    ensures Walk(e, roots, depth, all + Tagged(newly, all[h].dist + 1), h + 1)
  {
    var k := all[h].dist + 1;
    var more := all + Tagged(newly, k);
    ListedInMore(all, newly, k);
    AdvanceOrdered(all, h, newly);
    forall i | 0 <= i < |more| ensures OnLevel(e, roots, depth, more[i]) {
      if i < |all| { assert OnLevel(e, roots, depth, all[i]); }
      else { assert newly[i - |all|] in newly; AdvanceOnLevel(e, roots, depth, all, h, newly, newly[i - |all|]); }
    }
    forall i | 0 <= i < h + 1 ensures Opened(e, depth, more, more[i]) { AdvanceOpened(e, depth, all, h, newly, i); }
  }

  /** Requested ids in caller order, without blanks and repetitions. */
  method RequestedRoots(requested: seq<Id>) returns (roots: seq<Id>)
    ensures roots == FirstSeen(requested, {BLANK})
    ensures Distinct(roots) && forall x :: x in roots <==> x in requested && x != BLANK
  {
    roots := [];
    for i := 0 to |requested|
      invariant roots == FirstSeen(requested[..i], {BLANK})
      invariant Distinct(roots) && forall x :: x in roots <==> x in requested[..i] && x != BLANK
    {
      assert requested[..i + 1] == requested[..i] + [requested[i]];
      assert requested[..i + 1][..i] == requested[..i];
      if requested[i] != BLANK && requested[i] !in roots {
        roots := roots + [requested[i]];
      }
    }
    assert requested[..|requested|] == requested;
  }

  lemma StartingWalk(e: Edges, roots: seq<Id>, depth: Option<nat>)
    requires Distinct(roots)
    ensures Walk(e, (set x | x in roots), depth, Tagged(roots, 0), 0)
  {
    ListedInMore([], roots, 0);
    assert [] + Tagged(roots, 0) == Tagged(roots, 0);
  }

  /** The queue, the visited prefix and the discovered set of a running walk. */
  ghost predicate Running(e: Edges, start: set<Id>, depth: Option<nat>, visited: seq<Visit>, queue: seq<Visit>,
                          discovered: set<Id>) {
    && Walk(e, start, depth, visited + queue, |visited|)
    && Tracks(discovered, visited + queue)
    && discovered <= start + Targets(e)
  }

  ghost predicate Tracks(discovered: set<Id>, all: seq<Visit>) {
    forall x :: x in discovered <==> Listed(all, x)
  }

  lemma TracksMore(discovered: set<Id>, all: seq<Visit>, newly: seq<Id>, k: nat)
    requires Tracks(discovered, all)
    ensures Tracks(discovered + (set x | x in newly), all + Tagged(newly, k))
  {
    ListedSplit(all, newly, k);
  }

  lemma Requeued(visited: seq<Visit>, queue: seq<Visit>, more: seq<Visit>)
    requires queue != []
    ensures (visited + queue) + more == (visited + [queue[0]]) + (queue[1..] + more)
  {}

  ghost predicate ToPush(e: Edges, depth: Option<nat>, v: Visit, discovered: set<Id>, newly: seq<Id>) {
    && Distinct(newly)
    && forall x :: x in newly <==> v.id in e && Deeper(v.dist, depth) && x in e[v.id] && x !in discovered
  }

  lemma RunningStep(e: Edges, start: set<Id>, depth: Option<nat>, visited: seq<Visit>, queue: seq<Visit>,
                    discovered: set<Id>, newly: seq<Id>)
    requires Running(e, start, depth, visited, queue, discovered) && queue != []
    requires ToPush(e, depth, queue[0], discovered, newly)
    ensures Running(e, start, depth, visited + [queue[0]], queue[1..] + Tagged(newly, queue[0].dist + 1),
                    discovered + (set x | x in newly))
  {
    var v := queue[0];
    var all := visited + queue;
    WalkStep(e, start, depth, all, |visited|, discovered, newly);
    TracksMore(discovered, all, newly, v.dist + 1);
    Requeued(visited, queue, Tagged(newly, v.dist + 1));
    InTargets(e, depth, v, discovered, newly);
  }

  lemma InTargets(e: Edges, depth: Option<nat>, v: Visit, discovered: set<Id>, newly: seq<Id>)
    requires ToPush(e, depth, v, discovered, newly)
    ensures (set x | x in newly) <= Targets(e)
  {
    forall y | y in newly ensures y in Targets(e) { TargetsContain(e, v.id, y); }
  }

  lemma WalkStep(e: Edges, start: set<Id>, depth: Option<nat>, all: seq<Visit>, h: nat,
                 discovered: set<Id>, newly: seq<Id>)
    requires Walk(e, start, depth, all, h) && Tracks(discovered, all) && h < |all|
    requires ToPush(e, depth, all[h], discovered, newly)
    ensures Walk(e, start, depth, all + Tagged(newly, all[h].dist + 1), h + 1)
  {
    if newly != [] { assert newly[0] in newly; }
    WalkAdvances(e, start, depth, all, h, newly);
  }

  lemma PushShrinks(e: Edges, start: set<Id>, depth: Option<nat>, v: Visit, discovered: set<Id>, newly: seq<Id>)
    requires ToPush(e, depth, v, discovered, newly) && newly != []
    ensures start + Targets(e) - (discovered + (set x | x in newly)) < start + Targets(e) - discovered
  {
    assert newly[0] in newly;
    TargetsContain(e, v.id, newly[0]);
  }

  lemma RunningStart(e: Edges, roots: seq<Id>, depth: Option<nat>)
    requires Distinct(roots)
    ensures Running(e, (set x | x in roots), depth, [], Tagged(roots, 0), (set x | x in roots))
  {
    StartingWalk(e, roots, depth);
    TracksMore({}, [], roots, 0);
    assert {} + (set x | x in roots) == (set x | x in roots);
  }

  lemma RunningEnd(e: Edges, start: set<Id>, depth: Option<nat>, visited: seq<Visit>, discovered: set<Id>)
    requires Running(e, start, depth, visited, [], discovered)
    ensures Ordered(visited) && Sound(e, start, depth, visited) && Complete(e, start, depth, visited)
  {
    assert visited + [] == visited;
    WalkIsSound(e, start, depth, visited);
    WalkIsComplete(e, start, depth, visited);
  }

  /** What visiting `v` newly discovers: the unseen predecessors in the order the fact lists them. */
  function Newly(e: Edges, depth: Option<nat>, v: Visit, discovered: set<Id>): seq<Id> {
    if v.id in e && Deeper(v.dist, depth) then FirstSeen(e[v.id], discovered) else []
  }

  /** First in, first out: the order in which the ids still to come are visited. */
  ghost function BreadthFirst(e: Edges, depth: Option<nat>, queue: seq<Visit>, discovered: set<Id>): seq<Visit>
    decreases Targets(e) - discovered, |queue|
  {
    if queue == [] then []
    else
      var newly := Newly(e, depth, queue[0], discovered);
      NewlyShrinks(e, depth, queue[0], discovered);
      [queue[0]] + BreadthFirst(e, depth, queue[1..] + Tagged(newly, queue[0].dist + 1), discovered + Elements(newly))
  }

  lemma NewlyShrinks(e: Edges, depth: Option<nat>, v: Visit, discovered: set<Id>)
    ensures var newly := Newly(e, depth, v, discovered);
      if newly == [] then discovered + Elements(newly) == discovered
      else Targets(e) - (discovered + Elements(newly)) < Targets(e) - discovered
  {
    var newly := Newly(e, depth, v, discovered);
    if newly != [] {
      FirstSeenMembers(e[v.id], discovered);
      assert newly[0] in newly;
      TargetsContain(e, v.id, newly[0]);
    }
  }

  /** The one order in which the walk from the requested ids visits: roots as requested, then level by level,
      predecessors as listed. */
  ghost function WalkOrder(e: Edges, requested: seq<Id>, depth: Option<nat>): seq<Visit> {
    var roots := FirstSeen(requested, {BLANK});
    BreadthFirst(e, depth, Tagged(roots, 0), Elements(roots))
  }

  /** How a visited id is reported: by its card, as revoked, or as having no file at all. */
  datatype Fate = Active | Revoked | Missing

  function FateOf(e: Edges, files: set<Id>, x: Id): Fate {
    if x in e then Active else if x in files then Revoked else Missing
  }

  /** The visited ids of one fate, in the order of the walk. */
  function Reported(e: Edges, files: set<Id>, visited: seq<Visit>, fate: Fate): seq<Id> {
    if visited == [] then []
    else
      var n := |visited| - 1;
      Reported(e, files, visited[..n], fate)
      + if FateOf(e, files, visited[n].id) == fate then [visited[n].id] else []
  }

  /** Every visited id is reported exactly once, under its fate and in walk order. */
  ghost predicate Classified(e: Edges, files: set<Id>, visited: seq<Visit>,
                             records: seq<Id>, missing: seq<Id>, revoked: seq<Id>) {
    && records == Reported(e, files, visited, Active)
    && revoked == Reported(e, files, visited, Revoked)
    && missing == Reported(e, files, visited, Missing)
  }

  lemma {:induction false} ReportedMembers(e: Edges, files: set<Id>, visited: seq<Visit>, fate: Fate)
    ensures forall x :: x in Reported(e, files, visited, fate) <==> Listed(visited, x) && FateOf(e, files, x) == fate
  {
    if visited != [] {
      var n := |visited| - 1;
      ReportedMembers(e, files, visited[..n], fate);
      ListedPush(visited[..n], visited[n]);
      assert visited == visited[..n] + [visited[n]];
    }
  }

  lemma {:induction false} ReportedOnce(e: Edges, files: set<Id>, visited: seq<Visit>, fate: Fate)
    requires Ordered(visited)
    ensures Distinct(Reported(e, files, visited, fate))
  {
    if visited != [] {
      var n := |visited| - 1;
      ReportedOnce(e, files, visited[..n], fate);
      ReportedMembers(e, files, visited[..n], fate);
      assert !Listed(visited[..n], visited[n].id);
    }
  }

  /** Report one visited id. */
  method Classify(e: Edges, files: set<Id>, ghost visited: seq<Visit>, v: Visit,
                  records0: seq<Id>, missing0: seq<Id>, revoked0: seq<Id>)
      returns (records: seq<Id>, missing: seq<Id>, revoked: seq<Id>)
    requires Classified(e, files, visited, records0, missing0, revoked0)
    ensures Classified(e, files, visited + [v], records, missing, revoked)
  {
    assert (visited + [v])[..|visited|] == visited;
    records, missing, revoked := records0, missing0, revoked0;
    if v.id in e { records := records + [v.id]; }
    else if v.id in files { revoked := revoked + [v.id]; }
    else { missing := missing + [v.id]; }
  }

  /** The predecessors to enqueue for one visited id: none past the bound or without a file. */
  method ToEnqueue(e: Edges, depth: Option<nat>, v: Visit, discovered0: set<Id>)
      returns (newly: seq<Id>, discovered: set<Id>)
    ensures newly == Newly(e, depth, v, discovered0)
    ensures ToPush(e, depth, v, discovered0, newly)
    ensures discovered == discovered0 + (set x | x in newly)
  {
    newly, discovered := [], discovered0;
    if v.id in e && Deeper(v.dist, depth) {
      newly, discovered := NewPreds(e[v.id], discovered0);
    }
  }

  ghost function Requested(ids: seq<Id>): set<Id> { set x | x in ids && x != BLANK }

  /** What a walk may still discover. */
  ghost function Left(e: Edges, start: set<Id>, discovered: set<Id>): set<Id> { start + Targets(e) - discovered }

  /** Visit the head of the queue and enqueue what it newly reaches. */
  method Visited(e: Edges, depth: Option<nat>, ghost start: set<Id>, ghost visited: seq<Visit>, queue: seq<Visit>,
                 discovered0: set<Id>)
      returns (more: seq<Visit>, discovered: set<Id>)
    requires queue != [] && Running(e, start, depth, visited, queue, discovered0)
    ensures Running(e, start, depth, visited + [queue[0]], queue[1..] + more, discovered)
    ensures (more == [] && discovered == discovered0) || Left(e, start, discovered) < Left(e, start, discovered0)
    ensures BreadthFirst(e, depth, queue, discovered0)
            == [queue[0]] + BreadthFirst(e, depth, queue[1..] + more, discovered)
  {
    var newly;
    newly, discovered := ToEnqueue(e, depth, queue[0], discovered0);
    RunningStep(e, start, depth, visited, queue, discovered0, newly);
    more := Tagged(newly, queue[0].dist + 1);
    assert discovered == discovered0 + Elements(newly);
    if newly != [] {
      PushShrinks(e, start, depth, queue[0], discovered0, newly);
    } else {
      assert discovered == discovered0;
    }
  }

  /** The lazy context walk.  With a depth bound the visited ids are exactly those whose shortest
      chain from a requested root is that short; without one, the whole closure.  It ends on any
      stored edges, cyclic ones included. */
  method ContextWalk(e: Edges, revokedFiles: set<Id>, requested: seq<Id>, depth: Option<nat>)
      returns (visited: seq<Visit>, records: seq<Id>, missing: seq<Id>, revoked: seq<Id>)
    ensures visited == WalkOrder(e, requested, depth)
    ensures Ordered(visited) && Sound(e, Requested(requested), depth, visited)
    ensures Complete(e, Requested(requested), depth, visited)
    ensures Classified(e, revokedFiles, visited, records, missing, revoked)
  {
    var roots := RequestedRoots(requested);
    assert Requested(requested) == set x | x in roots;
    visited, records, missing, revoked := WalkFrom(e, revokedFiles, roots, Requested(requested), depth);
  }

  lemma OrderKept(visited: seq<Visit>, v: Visit, was: seq<Visit>, rest: seq<Visit>)
    requires was == [v] + rest
    ensures visited + was == (visited + [v]) + rest
  {}

  method WalkFrom(e: Edges, revokedFiles: set<Id>, roots: seq<Id>, ghost start: set<Id>, depth: Option<nat>)
      returns (visited: seq<Visit>, records: seq<Id>, missing: seq<Id>, revoked: seq<Id>)
    requires Distinct(roots) && start == set x | x in roots
    ensures visited == BreadthFirst(e, depth, Tagged(roots, 0), Elements(roots))
    ensures Ordered(visited) && Sound(e, start, depth, visited) && Complete(e, start, depth, visited)
    ensures Classified(e, revokedFiles, visited, records, missing, revoked)
  {
    visited, records, missing, revoked := [], [], [], [];
    var queue := Tagged(roots, 0);
    var discovered := set x | x in roots;
    RunningStart(e, roots, depth);
    ghost var order := BreadthFirst(e, depth, queue, discovered);
    while queue != []
      invariant Running(e, start, depth, visited, queue, discovered)
      invariant order == visited + BreadthFirst(e, depth, queue, discovered)
      invariant Classified(e, revokedFiles, visited, records, missing, revoked)
      decreases Left(e, start, discovered), |queue|
    {
      var v := queue[0];
      ghost var was := BreadthFirst(e, depth, queue, discovered);
      var more;
      more, discovered := Visited(e, depth, start, visited, queue, discovered);
      OrderKept(visited, v, was, BreadthFirst(e, depth, queue[1..] + more, discovered));
      records, missing, revoked := Classify(e, revokedFiles, visited, v, records, missing, revoked);
      queue, visited := queue[1..] + more, visited + [v];
    }
    assert visited + [] == visited;
    RunningEnd(e, start, depth, visited, discovered);
  }

  /** Every id some active fact names as a predecessor. */
  ghost function Targets(e: Edges): set<Id> { set x, i | x in e && 0 <= i < |e[x]| :: e[x][i] }

  lemma TargetsContain(e: Edges, x: Id, y: Id)
    requires x in e && y in e[x]
    ensures y in Targets(e)
  {}

  lemma ListedSplit(all: seq<Visit>, newly: seq<Id>, k: nat)
    ensures forall x :: Listed(all + Tagged(newly, k), x) <==> Listed(all, x) || x in newly
  {
    ListedInMore(all, newly, k);
    var more := all + Tagged(newly, k);
    forall x | Listed(more, x) ensures Listed(all, x) || x in newly {
      var i :| 0 <= i < |more| && more[i].id == x;
      if i < |all| { assert all[i].id == x; } else { assert newly[i - |all|] == x; }
    }
  }

  lemma ListedPush(all: seq<Visit>, v: Visit)
    ensures forall x :: Listed(all + [v], x) <==> Listed(all, x) || x == v.id
  {
    assert Tagged([v.id], v.dist) == [v];
    ListedSplit(all, [v.id], v.dist);
  }

  ghost predicate Sound(e: Edges, roots: set<Id>, depth: Option<nat>, all: seq<Visit>) {
    forall i :: 0 <= i < |all| ==>
      AtDistance(e, roots, all[i].id, all[i].dist) && (depth.Some? ==> all[i].dist <= depth.value)
  }

  ghost predicate Complete(e: Edges, roots: set<Id>, depth: Option<nat>, all: seq<Visit>) {
    forall x, k: nat :: AtDistance(e, roots, x, k) && (depth.Some? ==> k <= depth.value) ==> Listed(all, x)
  }

  /** A finished walk has visited ids at their distance, within the bound ... */
  lemma WalkIsSound(e: Edges, roots: set<Id>, depth: Option<nat>, all: seq<Visit>)
    requires Walk(e, roots, depth, all, |all|)
    ensures Sound(e, roots, depth, all)
  {
    forall i | 0 <= i < |all|
      ensures AtDistance(e, roots, all[i].id, all[i].dist) && (depth.Some? ==> all[i].dist <= depth.value)
    {
      assert OnLevel(e, roots, depth, all[i]);
      FirstLevelIsDistance(e, roots, all[i].id, all[i].dist);
    }
  }

  /** ... and all of them. */
  lemma WalkIsComplete(e: Edges, roots: set<Id>, depth: Option<nat>, all: seq<Visit>)
    requires Walk(e, roots, depth, all, |all|)
    ensures Complete(e, roots, depth, all)
  {
    forall x, k: nat | AtDistance(e, roots, x, k) && (depth.Some? ==> k <= depth.value) ensures Listed(all, x) {
      DistanceIsNear(e, roots, x, k);
      LevelDiscovered(e, roots, depth, all, |all|, k, x);
    }
  }

  lemma DistanceIsNear(e: Edges, roots: set<Id>, x: Id, k: nat)
    requires AtDistance(e, roots, x, k)
    ensures Near(e, roots, k, x)
  {
    var r, p :| r in roots && ChainFrom(e, r, p, x) && |p| - 1 == k;
    ChainIsNear(e, roots, r, p, x);
  }

  /** Without a bound the walk is the full closure: reachable means visited. */
  lemma ClosureIsReachability(e: Edges, roots: set<Id>, x: Id)
    ensures (exists r :: r in roots && Reaches(e, r, x)) <==> (exists k: nat :: AtDistance(e, roots, x, k))
  {
    if r :| r in roots && Reaches(e, r, x) {
      var p :| ChainFrom(e, r, p, x);
      ChainIsNear(e, roots, r, p, x);
      var k := LeastNear(e, roots, |p| - 1, x);
      FirstLevelIsDistance(e, roots, x, k);
    }
    if k: nat :| AtDistance(e, roots, x, k) {
      var r, p :| r in roots && ChainFrom(e, r, p, x) && |p| - 1 == k;
      assert Reaches(e, r, x);
    }
  }

  lemma {:induction false} LeastNear(e: Edges, roots: set<Id>, n: nat, x: Id) returns (k: nat)
    requires Near(e, roots, n, x)
    ensures k <= n && Near(e, roots, k, x) && (k > 0 ==> !Near(e, roots, k - 1, x))
  {
    if n > 0 && Near(e, roots, n - 1, x) { k := LeastNear(e, roots, n - 1, x); }
    else { k := n; }
  }
}
