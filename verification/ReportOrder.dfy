/** The order in which a progress report presents the verified facts. */
module ReportOrder {
  import opened Wrappers
  import opened Dag

  // ------------------------------------------------------- longest chain

  /** The longest predecessor chain of `x` has `d` steps. */
  ghost predicate IsLongest(e: Edges, x: Id, d: nat) {
    && (exists p, y :: ChainFrom(e, x, p, y) && |p| - 1 == d)
    && (forall p, y :: ChainFrom(e, x, p, y) ==> |p| - 1 <= d)
  }

  lemma LeafIsLongest(e: Edges, x: Id)
    requires Preds(e, x) == []
    ensures IsLongest(e, x, 0)
  {
    assert ChainFrom(e, x, [x], x);
    forall p, y | ChainFrom(e, x, p, y) ensures |p| - 1 <= 0 {
      if |p| >= 2 { ChainTail(e, p); }
    }
  }

  /** One more than the deepest predecessor. */
  lemma DeepestPredecessor(e: Edges, x: Id, z: Id, depth: map<Id, nat>)
    requires x in e && z in e[x] && z in depth
    requires forall y :: y in e[x] ==> y in depth && IsLongest(e, y, depth[y]) && depth[y] <= depth[z]
    ensures IsLongest(e, x, 1 + depth[z])
  {
    var p, y :| ChainFrom(e, z, p, y) && |p| - 1 == depth[z];
    ExtendChain(e, x, z, p, y);
    assert |[x] + p| - 1 == 1 + depth[z];
    forall q, y | ChainFrom(e, x, q, y) ensures |q| - 1 <= 1 + depth[z] {
      if |q| >= 2 {
        ChainTail(e, q);
        assert ChainFrom(e, q[1], q[1..], y);
        assert IsLongest(e, q[1], depth[q[1]]);
      }
    }
  }

  /** Settled cache entries are longest chains; the ones in `open` are still being computed. */
  ghost predicate Settled(e: Edges, cache: map<Id, nat>, open: set<Id>) {
    && open <= cache.Keys
    && forall y :: y in cache && y !in open ==> IsLongest(e, y, cache[y])
  }

  ghost predicate Below(rank: map<Id, nat>, x: Id, open: set<Id>) {
    forall y :: y in open ==> x in rank && y in rank && rank[x] < rank[y]
  }

  ghost predicate Universe(e: Edges, u: set<Id>) {
    forall x, y :: x in u && x in e && y in e[x] ==> y in u
  }

  class DepthCache {
    const e: Edges
    var cache: map<Id, nat>
    ghost const acyclic: bool
    ghost const rank: map<Id, nat>

    ghost predicate Valid() { acyclic ==> Ranked(e, rank) }

    constructor (e: Edges)
      ensures this.e == e && cache == map[] && Valid() && acyclic == Acyclic(e)
    {
      this.e := e;
      cache := map[];
      acyclic, rank := Acyclic(e), RankOf(e);
    }

    /** Memoised longest chain.  The provisional 0 that breaks cycles is never read on an acyclic
        graph, so there the shared cache always returns the longest chain; the recursion ends on
        every graph. */
    method Depth(x: Id, ghost u: set<Id>, ghost open: set<Id>)
        returns (d: nat)
      requires Universe(e, u) && x in u
      requires Valid() && (acyclic ==> Settled(e, cache, open) && Below(rank, x, open))
      modifies this
      ensures old(cache.Keys) <= cache.Keys && x in cache
      ensures acyclic ==> Settled(e, cache, open) && IsLongest(e, x, d)
      decreases u - cache.Keys, 0
    {
      if x in cache { return cache[x]; }
      ghost var keys := cache.Keys;
      cache := cache[x := 0];
      var preds := Preds(e, x);
      if preds == [] {
        LeafIsLongest(e, x);
        d := 0;
      } else {
        assert x in u - keys && u - cache.Keys == (u - keys) - {x};
        d := DeepestOf(x, preds, u, open + {x});
        d := d + 1;
      }
      cache := cache[x := d];
    }

    method DeepestOf(x: Id, preds: seq<Id>, ghost u: set<Id>, ghost open: set<Id>) returns (best: nat)
      requires Universe(e, u) && x in u && x in e && e[x] == preds && preds != []
      requires x in cache && x in open
      requires Valid() && (acyclic ==> Settled(e, cache, open) && Below(rank, x, open - {x}))
      modifies this
      ensures old(cache.Keys) <= cache.Keys
      ensures acyclic ==> Settled(e, cache, open) && IsLongest(e, x, 1 + best)
      decreases u - cache.Keys, 1
    {
      ghost var depths: map<Id, nat> := map[];
      ghost var z := preds[0];
      best := 0;
      ghost var keys := cache.Keys;
      for i := 0 to |preds|
        invariant keys <= cache.Keys
        invariant acyclic ==> Settled(e, cache, open)
        invariant forall k :: 0 <= k < i ==> preds[k] in depths
        invariant acyclic ==> forall y :: y in depths ==> IsLongest(e, y, depths[y]) && depths[y] <= best
        invariant acyclic && i > 0 ==> z in preds && z in depths && depths[z] == best
        invariant i == 0 ==> best == 0
      {
        ghost var y := preds[i];
        if acyclic { PredecessorIsBelow(e, rank, x, y, open); }
        assert u - cache.Keys == u - keys || u - cache.Keys < u - keys;
        var dy := Depth(preds[i], u, open);
        if acyclic && y in depths { LongestIsUnique(e, y, dy, depths[y]); }
        if i == 0 || best < dy { best := dy; z := y; }
        depths := depths[y := dy];
      }
      if acyclic { DeepestPredecessor(e, x, z, depths); }
    }
  }

  lemma PredecessorIsBelow(e: Edges, rank: map<Id, nat>, x: Id, y: Id, open: set<Id>)
    requires Ranked(e, rank) && x in e && y in e[x] && x in open && Below(rank, x, open - {x})
    ensures Below(rank, y, open)
  {
    assert RankedAt(e[x], rank, x);
  }

  lemma LongestIsUnique(e: Edges, x: Id, a: nat, b: nat)
    requires IsLongest(e, x, a) && IsLongest(e, x, b)
    ensures a == b
  {
    var p, y :| ChainFrom(e, x, p, y) && |p| - 1 == a;
    var q, z :| ChainFrom(e, x, q, z) && |q| - 1 == b;
  }

  // ------------------------------------------------------------ in-degree

  /** How often the listed facts name `x` as a direct predecessor. */
  function Citations(e: Edges, ids: seq<Id>, x: Id): nat {
    if ids == [] then 0 else Citations(e, ids[..|ids| - 1], x) + multiset(Preds(e, ids[|ids| - 1]))[x]
  }

  /** Count the predecessors one fact names; predecessors outside the listing are ignored. */
  method CountPreds(preds: seq<Id>, deg0: map<Id, nat>) returns (deg: map<Id, nat>)
    ensures deg.Keys == deg0.Keys
    ensures forall x :: x in deg ==> deg[x] == deg0[x] + multiset(preds)[x]
  {
    deg := deg0;
    for j := 0 to |preds|
      invariant deg.Keys == deg0.Keys
      invariant forall x :: x in deg ==> deg[x] == deg0[x] + multiset(preds[..j])[x]
    {
      assert preds[..j + 1] == preds[..j] + [preds[j]];
      if preds[j] in deg {
        deg := deg[preds[j] := deg[preds[j]] + 1];
      }
    }
    assert preds[..|preds|] == preds;
  }

  method InDegree(e: Edges, ids: seq<Id>) returns (deg: map<Id, nat>)
    ensures deg.Keys == Elements(ids)
    ensures forall x :: x in deg ==> deg[x] == Citations(e, ids, x)
  {
    deg := map x | x in ids :: 0;
    for i := 0 to |ids|
      invariant deg.Keys == Elements(ids)
      invariant forall x :: x in deg ==> deg[x] == Citations(e, ids[..i], x)
    {
      deg := CountPreds(Preds(e, ids[i]), deg);
      assert ids[..i + 1][..|ids[..i + 1]| - 1] == ids[..i];
    }
    assert ids[..|ids|] == ids;
  }

  // ------------------------------------------------------------- priority

  /** Ties are broken by id. */
  predicate Leq(a: Id, b: Id) { a <= b }

  datatype Weights = Weights(depth: map<Id, nat>, indegree: map<Id, nat>)
  {
    function Depth(x: Id): nat { if x in depth then depth[x] else 0 }
    function Cited(x: Id): nat { if x in indegree then indegree[x] else 0 }

    /** `a` is presented no later than `b`: deeper first, then more cited, then by id. */
    predicate Prefers(a: Id, b: Id) {
      || Depth(a) > Depth(b)
      || (Depth(a) == Depth(b) && Cited(a) > Cited(b))
      || (Depth(a) == Depth(b) && Cited(a) == Cited(b) && Leq(a, b))
    }
  }

  /** All in-graph predecessors of `x` have been placed. */
  predicate Ready(e: Edges, ids: set<Id>, placed: set<Id>, x: Id) {
    forall p :: p in Preds(e, x) && p in ids ==> p in placed
  }

  function Candidates(e: Edges, ids: set<Id>, placed: set<Id>): set<Id> {
    var ready := set x | x in ids - placed && Ready(e, ids, placed, x);
    if ready == {} then ids - placed else ready
  }

  lemma PrefersTransitive(w: Weights, a: Id, b: Id, c: Id)
    requires w.Prefers(a, b) && w.Prefers(b, c)
    ensures w.Prefers(a, c)
  {}

  method Best(w: Weights, s: set<Id>) returns (x: Id)
    requires s != {}
    ensures x in s && forall y :: y in s ==> w.Prefers(x, y)
  {
    x :| x in s;
    var todo := s - {x};
    while todo != {}
      invariant x in s && x !in todo && todo <= s && forall y :: y in s - todo ==> w.Prefers(x, y)
      decreases todo
    {
      var y :| y in todo;
      if !w.Prefers(x, y) {
        assert w.Prefers(y, x);
        forall z | z in s - todo ensures w.Prefers(y, z) { PrefersTransitive(w, y, x, z); }
        x := y;
      }
      todo := todo - {y};
    }
  }

  ghost predicate Greedy(e: Edges, ids: set<Id>, w: Weights, order: seq<Id>) {
    forall k :: 0 <= k < |order| ==> Chosen(e, ids, w, order, k)
  }

  ghost predicate Chosen(e: Edges, ids: set<Id>, w: Weights, order: seq<Id>, k: nat)
    requires k < |order|
  {
    var c := Candidates(e, ids, Elements(order[..k]));
    order[k] in c && forall y :: y in c ==> w.Prefers(order[k], y)
  }

  /** Every fact comes after all its in-graph predecessors. */
  ghost predicate Topological(e: Edges, ids: set<Id>, order: seq<Id>) {
    forall k :: 0 <= k < |order| ==> Ready(e, ids, Elements(order[..k]), order[k])
  }

  /** On an acyclic graph something is always ready: the remaining fact that depends on least. */
  lemma SomethingIsReady(e: Edges, ids: set<Id>, placed: set<Id>)
    requires Acyclic(e) && ids <= e.Keys && ids - placed != {}
    ensures exists x :: x in ids - placed && Ready(e, ids, placed, x)
  {
    var rank := RankOf(e);
    LeastIsReady(e, rank, ids, placed);
  }

  lemma LeastIsReady(e: Edges, rank: map<Id, nat>, ids: set<Id>, placed: set<Id>)
    requires Ranked(e, rank) && ids <= e.Keys && ids - placed != {}
    ensures exists x :: x in ids - placed && Ready(e, ids, placed, x)
  {
    var x := LeastRank(e, rank, ids - placed);
    assert RankedAt(e[x], rank, x);
  }

  lemma {:induction false} LeastRank(e: Edges, rank: map<Id, nat>, s: set<Id>) returns (x: Id)
    requires Ranked(e, rank) && s <= e.Keys && s != {}
    ensures x in s && x in rank && forall y :: y in s ==> y in rank && rank[x] <= rank[y]
    decreases s
  {
    x :| x in s;
    assert RankedAt(e[x], rank, x);
    if s != {x} {
      var y := LeastRank(e, rank, s - {x});
      if rank[y] < rank[x] { x := y; }
    }
  }

  /** The greedy order is unique: two presentations of the same graph are identical. */
  lemma {:induction false} GreedyIsUnique(e: Edges, ids: set<Id>, w: Weights, a: seq<Id>, b: seq<Id>, n: nat)
    requires Greedy(e, ids, w, a) && Greedy(e, ids, w, b) && n <= |a| && n <= |b|
    ensures a[..n] == b[..n]
  {
    if n > 0 {
      GreedyIsUnique(e, ids, w, a, b, n - 1);
      assert Chosen(e, ids, w, a, n - 1) && Chosen(e, ids, w, b, n - 1);
      assert w.Prefers(a[n - 1], b[n - 1]) && w.Prefers(b[n - 1], a[n - 1]);
      assert a[..n] == a[..n - 1] + [a[n - 1]] && b[..n] == b[..n - 1] + [b[n - 1]];
    }
  }

  /** `a` deserves the earlier place: deeper, or as deep and more cited, or the smaller id of two equals. */
  ghost predicate Outranks(w: Weights, a: Id, b: Id)
    requires a in w.depth && b in w.depth && a in w.indegree && b in w.indegree
  {
    if w.depth[a] != w.depth[b] then w.depth[a] > w.depth[b]
    else if w.indegree[a] != w.indegree[b] then w.indegree[a] > w.indegree[b]
    else a < b
  }

  /** All in-graph predecessors of the fact at place `j` stand before place `k`. */
  ghost predicate CouldStand(e: Edges, order: seq<Id>, j: nat, k: nat)
    requires k <= j < |order|
  {
    forall p :: p in Preds(e, order[j]) && p in order ==> p in order[..k]
  }

  /** A fact stands before another that could have taken its place only if it outranks it; where no remaining fact
      could, all of them compete. */
  ghost predicate Ranking(e: Edges, w: Weights, order: seq<Id>)
    requires Elements(order) <= w.depth.Keys && Elements(order) <= w.indegree.Keys
  {
    forall k, j :: 0 <= k < j < |order| ==>
      (CouldStand(e, order, j, k) || forall i :: k <= i < |order| ==> !CouldStand(e, order, i, k)) ==>
      Outranks(w, order[k], order[j])
  }

  lemma GreedyRanks(e: Edges, ids: set<Id>, w: Weights, order: seq<Id>)
    requires Greedy(e, ids, w, order) && Distinct(order) && Elements(order) == ids
    requires Elements(order) <= w.depth.Keys && Elements(order) <= w.indegree.Keys
    ensures Ranking(e, w, order)
  {
    forall k, j | 0 <= k < j < |order|
      && (CouldStand(e, order, j, k) || forall i :: k <= i < |order| ==> !CouldStand(e, order, i, k))
      ensures Outranks(w, order[k], order[j])
    {
      assert Chosen(e, ids, w, order, k);
      var placed := Elements(order[..k]);
      forall x | x in ids - placed && Ready(e, ids, placed, x)
        ensures exists i :: k <= i < |order| && order[i] == x && CouldStand(e, order, i, k)
      {
        StandsLater(order, k, x);
      }
      StandsIn(e, ids, order, j, k);
      assert w.Prefers(order[k], order[j]);
    }
  }

  lemma StandsLater(order: seq<Id>, k: nat, x: Id)
    requires k <= |order| && x in Elements(order) && x !in Elements(order[..k])
    ensures exists i :: k <= i < |order| && order[i] == x
  {
    assert order == order[..k] + order[k..];
    var i :| 0 <= i < |order[k..]| && order[k..][i] == x;
    assert order[k + i] == x;
  }

  lemma StandsIn(e: Edges, ids: set<Id>, order: seq<Id>, j: nat, k: nat)
    requires Distinct(order) && Elements(order) == ids && k <= j < |order|
    ensures order[j] in ids - Elements(order[..k])
    ensures CouldStand(e, order, j, k) <==> Ready(e, ids, Elements(order[..k]), order[j])
  {
    assert order[j] in order;
    forall i | 0 <= i < k ensures order[..k][i] != order[j] {}
  }

  /** A partial order of presentation: greedy so far, and topological if the graph is acyclic. */
  ghost predicate Partial(e: Edges, ids: set<Id>, w: Weights, acyclic: bool, order: seq<Id>) {
    && Distinct(order) && Elements(order) <= ids && Greedy(e, ids, w, order) && (acyclic ==> Topological(e, ids, order))
  }

  /** `_ordered_load_bearing`: all facts, each once, greedily by priority among the ready ones; on
      an acyclic graph this is a topological order, on a cyclic one still a permutation. */
  method Order(e: Edges, ids: seq<Id>) returns (order: seq<Id>, w: Weights)
    requires Distinct(ids) && Elements(ids) == e.Keys
    ensures Distinct(order) && Elements(order) == Elements(ids)
    ensures Greedy(e, Elements(ids), w, order)
    ensures Acyclic(e) ==>
      forall j, p :: 0 <= j < |order| && p in Preds(e, order[j]) && p in ids ==> p in order[..j]
    ensures Elements(order) <= w.depth.Keys && Elements(order) <= w.indegree.Keys
    ensures forall x :: x in ids ==> x in w.depth && x in w.indegree && w.indegree[x] == Citations(e, ids, x)
    ensures Acyclic(e) ==> forall x :: x in ids ==> IsLongest(e, x, w.depth[x])
    ensures Ranking(e, w, order)
  {
    var depth := Depths(e, ids);
    var indegree := InDegree(e, ids);
    w := Weights(depth, indegree);
    order := Place(e, Elements(ids), w, Acyclic(e));
    forall x | x in order ensures x in ids { assert x in Elements(order); }
    GreedyRanks(e, Elements(ids), w, order);
    if Acyclic(e) {
      forall j, p | 0 <= j < |order| && p in Preds(e, order[j]) && p in ids ensures p in order[..j] {
        assert Ready(e, Elements(ids), Elements(order[..j]), order[j]) && p in Elements(ids);
      }
    }
  }

  method Place(e: Edges, all: set<Id>, w: Weights, ghost acyclic: bool) returns (order: seq<Id>)
    requires all <= e.Keys && (acyclic ==> Acyclic(e))
    ensures Partial(e, all, w, acyclic, order) && Elements(order) == all
  {
    var remaining := all;
    order := [];
    while remaining != {}
      invariant Partial(e, all, w, acyclic, order) && remaining == all - Elements(order)
      decreases remaining
    {
      var chosen := Best(w, Candidates(e, all, Elements(order)));
      if acyclic { SomethingIsReady(e, all, Elements(order)); }
      PartialGrows(e, all, w, acyclic, order, chosen);
      order := order + [chosen];
      remaining := remaining - {chosen};
    }
    ghost var placed := Elements(order);
    forall x | x in all ensures x in placed { assert x !in all - placed; }
  }

  lemma PartialGrows(e: Edges, ids: set<Id>, w: Weights, acyclic: bool, order: seq<Id>, x: Id)
    requires Partial(e, ids, w, acyclic, order)
    requires x in Candidates(e, ids, Elements(order))
    requires forall y :: y in Candidates(e, ids, Elements(order)) ==> w.Prefers(x, y)
    requires acyclic ==> exists y :: y in ids - Elements(order) && Ready(e, ids, Elements(order), y)
    ensures Partial(e, ids, w, acyclic, order + [x]) && Elements(order + [x]) == Elements(order) + {x}
    ensures x in ids - Elements(order)
  {
    OrderGrows(e, ids, w, order, x);
    var a, b := Elements(order + [x]), Elements(order) + {x};
    forall y ensures y in a <==> y in b { assert y in a <==> y in order + [x]; }
    assert a == b;
  }

  lemma OrderGrows(e: Edges, ids: set<Id>, w: Weights, order: seq<Id>, x: Id)
    requires Greedy(e, ids, w, order)
    requires x in Candidates(e, ids, Elements(order))
    requires forall y :: y in Candidates(e, ids, Elements(order)) ==> w.Prefers(x, y)
    ensures Greedy(e, ids, w, order + [x])
    ensures Topological(e, ids, order) && Ready(e, ids, Elements(order), x) ==> Topological(e, ids, order + [x])
  {
    var more := order + [x];
    forall k | 0 <= k < |more| ensures Chosen(e, ids, w, more, k) {
      if k < |order| { assert Chosen(e, ids, w, order, k); assert more[..k] == order[..k]; }
      else { assert more[..k] == order; }
    }
    if Topological(e, ids, order) && Ready(e, ids, Elements(order), x) {
      forall k | 0 <= k < |more| ensures Ready(e, ids, Elements(more[..k]), more[k]) {
        if k < |order| { assert more[..k] == order[..k]; } else { assert more[..k] == order; }
      }
    }
  }

  method Depths(e: Edges, ids: seq<Id>) returns (depth: map<Id, nat>)
    ensures forall x :: x in ids ==> x in depth
    ensures Acyclic(e) ==> forall x :: x in ids ==> IsLongest(e, x, depth[x])
  {
    var c := new DepthCache(e);
    ghost var u := Elements(ids) + e.Keys + Targets(e);
    assert Universe(e, u) by {
      forall x, y | x in u && x in e && y in e[x] ensures y in u { TargetsContain(e, x, y); }
    }
    depth := map[];
    for i := 0 to |ids|
      invariant forall k :: 0 <= k < i ==> ids[k] in depth
      invariant c.acyclic ==> Settled(e, c.cache, {})
      invariant c.acyclic ==> forall x :: x in depth ==> IsLongest(e, x, depth[x])
    {
      assert ids[i] in Elements(ids);
      var d := c.Depth(ids[i], u, {});
      depth := depth[ids[i] := d];
    }
  }
}
