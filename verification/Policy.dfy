/** The roster of paid lanes and the outcomes that release a candidate overlay. */
module Policy {
  import opened Wrappers

  datatype Lane = Root | Critic | Explorer(index: nat) | Observer

  /** The paid lanes: one worker each. */
  datatype Roster = Roster(root: Name, critic: Option<Name>, explorers: seq<Name>, lanes: map<Name, Lane>)

  /** The protected workers, in lane order. */
  function Workers(r: Roster): seq<Name> {
    [r.root] + (if r.critic.Some? then [r.critic.value] else []) + r.explorers
  }

  function LaneOf(r: Roster, w: Name): Lane { if w in r.lanes then r.lanes[w] else Observer }

  predicate SameLane(r: Roster, a: Name, b: Name) { a in r.lanes && b in r.lanes && r.lanes[a] == r.lanes[b] }

  ghost predicate LaneRow(r: Roster, w: Name, lane: Lane) {
    lane != Observer && (lane == Root <==> w == r.root) && (lane == Critic <==> r.critic == Some(w))
  }

  predicate HasLane(r: Roster, w: Name) { w in r.lanes <==> w in Workers(r) }

  /** No more lanes than paid workers, no lane held twice, root and critic where the roster says. */
  ghost predicate WellFormed(r: Roster, maxPaid: nat) {
    && |r.lanes| <= maxPaid && r.root in r.lanes
    && (forall w {:trigger LaneRow(r, w, r.lanes[w])} :: w in r.lanes ==> LaneRow(r, w, r.lanes[w]))
    && (forall a, b {:trigger SameLane(r, a, b)} :: SameLane(r, a, b) ==> a == b)
    && (forall w {:trigger HasLane(r, w)} :: HasLane(r, w))
  }

  /** Each paid lane belongs to exactly one worker; everyone else observes. */
  lemma LaneIdentifiesWorker(r: Roster, maxPaid: nat, a: Name, b: Name)
    requires WellFormed(r, maxPaid)
    ensures LaneOf(r, a) != Observer <==> a in r.lanes
    ensures LaneOf(r, a) == LaneOf(r, b) != Observer ==> a == b
    ensures LaneOf(r, a) == Root <==> a == r.root
    ensures LaneOf(r, a) == Critic ==> r.critic == Some(a)
  {
    if a in r.lanes { assert LaneRow(r, a, r.lanes[a]); }
    assert LaneRow(r, r.root, r.lanes[r.root]);
    if a in r.lanes && b in r.lanes && r.lanes[a] == r.lanes[b] { assert SameLane(r, a, b); }
  }

  // ----------------------------------------------------------------- selection

  function IndexOf(s: seq<Name>, w: Name): (k: nat)
    requires w in s
    ensures k < |s| && s[k] == w
  {
    if s[0] == w then 0 else 1 + IndexOf(s[1..], w)
  }

  /** `a` comes before `b`: more effort, or the same and earlier in the project's list. */
  predicate Before(rank: Name -> int, workers: seq<Name>, a: Name, b: Name)
    requires a in workers && b in workers
  {
    rank(a) > rank(b) || (rank(a) == rank(b) && IndexOf(workers, a) <= IndexOf(workers, b))
  }

  ghost predicate Ordered(rank: Name -> int, workers: seq<Name>, s: seq<Name>)
    requires forall i :: 0 <= i < |s| ==> s[i] in workers
  {
    forall i, j :: 0 <= i < j < |s| ==> Before(rank, workers, s[i], s[j])
  }

  /** `workers` sorted by effort, ties in roster order. */
  method SortByEffort(rank: Name -> int, workers: seq<Name>) returns (s: seq<Name>)
    requires Distinct(workers)
    ensures forall w :: w in s <==> w in workers
    ensures |s| == |workers| && Distinct(s) && Ordered(rank, workers, s)
  {
    s := [];
    for n := 0 to |workers|
      invariant |s| == n && forall w :: w in s <==> w in workers[..n]
      invariant forall i :: 0 <= i < |s| ==> s[i] in workers
      invariant Distinct(s) && Ordered(rank, workers, s)
    {
      var w := workers[n];
      assert w !in workers[..n];
      var k := |s|;
      while k > 0 && !Before(rank, workers, s[k - 1], w)
        invariant 0 <= k <= |s|
        invariant forall i :: k <= i < |s| ==> Before(rank, workers, w, s[i])
      {
        k := k - 1;
      }
      assert forall i :: 0 <= i < k ==> Before(rank, workers, s[i], w) by {
        forall i | 0 <= i < k ensures Before(rank, workers, s[i], w) {
          if i < k - 1 { assert Before(rank, workers, s[i], s[k - 1]) && Before(rank, workers, s[k - 1], w); }
        }
      }
      s := Insert(rank, workers, s, w, k);
      assert workers[..n + 1] == workers[..n] + [w];
    }
    assert workers[..|workers|] == workers;
  }

  function Insert(rank: Name -> int, workers: seq<Name>, s: seq<Name>, w: Name, k: nat): (r: seq<Name>)
    requires w in workers && w !in s && k <= |s| && Distinct(s) && forall i :: 0 <= i < |s| ==> s[i] in workers
    requires Ordered(rank, workers, s)
    requires forall i :: 0 <= i < k ==> Before(rank, workers, s[i], w)
    requires forall i :: k <= i < |s| ==> Before(rank, workers, w, s[i])
    ensures |r| == |s| + 1 && Distinct(r) && (forall v :: v in r <==> v in s || v == w)
    ensures forall i :: 0 <= i < |r| ==> r[i] in workers
    ensures Ordered(rank, workers, r)
  {
    s[..k] + [w] + s[k..]
  }

  /** `select_lane_roster`: root, critic and explorers are the best workers, one per paid lane. */
  method SelectLaneRoster(effort: map<Name, int>, workers: seq<Name>, maxPaid: nat) returns (r: Result<Roster, string>)
    requires 1 <= maxPaid
    ensures r.Ok? <==>
      workers != [] && Distinct(workers) && effort.Keys == Elements(workers) && (maxPaid > 2 ==> |workers| >= maxPaid)
    ensures r.Ok? ==> Picked(effort, workers, maxPaid, Workers(r.value))
    ensures r.Ok? ==> WellFormed(r.value, maxPaid)
    ensures r.Ok? ==> forall i :: 0 <= i < |r.value.explorers| ==>
      r.value.explorers[i] in r.value.lanes && r.value.lanes[r.value.explorers[i]] == Explorer(i + 1)
  {
    if workers == [] || !Distinct(workers) { return Err("project roster metadata is malformed"); }
    if effort.Keys != Elements(workers) { return Err("project roles and worker roster disagree"); }
    var rank := RankBy(effort);
    var ordered := SortByEffort(rank, workers);
    if maxPaid > 2 && |ordered| < maxPaid { return Err("fewer workers than protected paid lanes"); }
    var n := if maxPaid <= |ordered| then maxPaid else |ordered|;
    var critic := if maxPaid > 1 && |ordered| > 1 then Some(ordered[1]) else None;
    var explorers := if n > 2 then ordered[2..n] else [];
    var lanes := AssignLanes(ordered[..n]);
    var roster := Roster(ordered[0], critic, explorers, lanes);
    assert Workers(roster) == ordered[..n];
    PrefixIsBest(rank, workers, maxPaid, ordered, n);
    BestIsPicked(effort, workers, maxPaid, ordered[..n]);
    LanesAreWellFormed(roster, maxPaid);
    ExplorersAreNumbered(roster);
    r := Ok(roster);
  }

  function RankBy(effort: map<Name, int>): Name -> int { w => if w in effort then effort[w] else -1 }

  /** One paid lane per configured worker, filled with the project's best. */
  ghost predicate Best(rank: Name -> int, workers: seq<Name>, maxPaid: nat, lanes: seq<Name>) {
    && |lanes| == (if maxPaid <= |workers| then maxPaid else |workers|)
    && (forall i :: 0 <= i < |lanes| ==> lanes[i] in workers)
    && Ordered(rank, workers, lanes)
    && (forall w, v :: w in lanes && v in workers && v !in lanes ==> Before(rank, workers, w, v))
  }

  /** `a` goes before `b`: it has more effort, or as much and an earlier place in the project's list. */
  ghost predicate Precedes(effort: map<Name, int>, workers: seq<Name>, a: Name, b: Name) {
    && a in effort && b in effort
    && (|| effort[a] > effort[b]
        || (effort[a] == effort[b]
            && exists i, j :: 0 <= i <= j < |workers| && workers[i] == a && workers[j] == b))
  }

  /** As many workers as there are paid lanes for, in order, and nobody left out goes before one of them. */
  ghost predicate Picked(effort: map<Name, int>, workers: seq<Name>, maxPaid: nat, lanes: seq<Name>) {
    && |lanes| == (if maxPaid <= |workers| then maxPaid else |workers|)
    && (forall i :: 0 <= i < |lanes| ==> lanes[i] in workers)
    && (forall i, j :: 0 <= i < j < |lanes| ==> Precedes(effort, workers, lanes[i], lanes[j]))
    && (forall w, v :: w in lanes && v in workers && v !in lanes ==> Precedes(effort, workers, w, v))
  }

  lemma BestIsPicked(effort: map<Name, int>, workers: seq<Name>, maxPaid: nat, lanes: seq<Name>)
    requires effort.Keys == Elements(workers) && Best(RankBy(effort), workers, maxPaid, lanes)
    ensures Picked(effort, workers, maxPaid, lanes)
  {
    forall a, b | a in workers && b in workers && Before(RankBy(effort), workers, a, b)
      ensures Precedes(effort, workers, a, b)
    {
      assert a in Elements(workers) && b in Elements(workers);
      assert workers[IndexOf(workers, a)] == a && workers[IndexOf(workers, b)] == b;
    }
  }

  lemma ExplorersAreNumbered(r: Roster)
    requires Assigned(r.lanes, Workers(r)) && (r.explorers != [] ==> r.critic.Some?)
    ensures forall i :: 0 <= i < |r.explorers| ==>
      r.explorers[i] in r.lanes && r.lanes[r.explorers[i]] == Explorer(i + 1)
  {
    forall i | 0 <= i < |r.explorers|
      ensures r.explorers[i] in r.lanes && r.lanes[r.explorers[i]] == Explorer(i + 1)
    {
      assert Workers(r)[i + 2] == r.explorers[i];
    }
  }

  lemma PrefixIsBest(rank: Name -> int, workers: seq<Name>, maxPaid: nat, ordered: seq<Name>, n: nat)
    requires (forall w :: w in ordered <==> w in workers) && |ordered| == |workers| && Ordered(rank, workers, ordered)
    requires n == if maxPaid <= |workers| then maxPaid else |workers|
    ensures Best(rank, workers, maxPaid, ordered[..n])
  {
    forall w, v | w in ordered[..n] && v in workers && v !in ordered[..n] ensures Before(rank, workers, w, v) {
      var i :| 0 <= i < n && ordered[i] == w;
      var j :| 0 <= j < |ordered| && ordered[j] == v;
      assert forall k :: 0 <= k < n ==> ordered[..n][k] == ordered[k];
    }
  }

  function LaneAt(i: nat): Lane { if i == 0 then Root else if i == 1 then Critic else Explorer(i - 1) }

  ghost predicate Assigned(lanes: map<Name, Lane>, all: seq<Name>) {
    && (forall w :: w in lanes <==> w in all)
    && (forall i :: 0 <= i < |all| ==> all[i] in lanes && lanes[all[i]] == LaneAt(i))
  }

  method AssignLanes(all: seq<Name>) returns (lanes: map<Name, Lane>)
    requires Distinct(all)
    ensures Assigned(lanes, all) && |lanes| == |all|
  {
    lanes := map[];
    for i := 0 to |all|
      invariant Assigned(lanes, all[..i]) && |lanes| == i
    {
      assert all[i] !in all[..i];
      lanes := lanes[all[i] := LaneAt(i)];
      assert all[..i + 1] == all[..i] + [all[i]];
    }
    assert all[..|all|] == all;
  }

  lemma LanesAreWellFormed(r: Roster, maxPaid: nat)
    requires Distinct(Workers(r)) && Assigned(r.lanes, Workers(r)) && |r.lanes| <= maxPaid
    requires (r.explorers != [] ==> r.critic.Some?)
    ensures WellFormed(r, maxPaid)
  {
    var all := Workers(r);
    assert all[0] == r.root;
    forall w | w in r.lanes ensures LaneRow(r, w, r.lanes[w]) {
      var i :| 0 <= i < |all| && all[i] == w;
      if r.critic.Some? { assert all[1] == r.critic.value; }
    }
    forall a, b | SameLane(r, a, b) ensures a == b {
      var i :| 0 <= i < |all| && all[i] == a;
      var j :| 0 <= j < |all| && all[j] == b;
    }
  }

  // ------------------------------------------------------------------ outcomes

  datatype Outcome = Correct | Wrong | NeedsContext | Failed | PromotionUnknown | OutcomeUnknown

  /** Only a verification of unknown outcome keeps the overlay frozen. */
  predicate Releases(o: Outcome): (r: bool)
    ensures r <==> o in {Correct, Wrong, NeedsContext, Failed, PromotionUnknown}
  {
    o != OutcomeUnknown
  }
}
