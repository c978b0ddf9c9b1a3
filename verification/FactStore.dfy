/** `FactGraph` as an object: add, context-checked add and cascade revocation with its journal.

    The kill schedule is arbitrary: the process may die before any visible step.  While a
    journal is pending, `origin` (ghost) is the graph the cascade started from and the files are
    somewhere between it and the finished cascade. */
module FactStore {
  import opened Wrappers
  import opened Dag
  import opened FactGraph

  datatype Error =
    | DuplicatePredecessor | PredecessorRevoked | PredecessorUnknown | FactRevoked | IdentityCollision
    | GlossaryConflict | ContextChanged | UnknownFact
    | Inconsistent  // conflicting stored definitions, or a journalled fact in both stores or in none

  datatype Reply<+T> = Answer(value: T) | Refused(error: Error) | Killed

  /** Between the graph `g` and its finished cascade, with the files in `gone` moved. */
  ghost predicate Midway(g: Graph, p: Pending, gone: set<Id>, h: Graph) {
    && gone <= Elements(p.ids) && gone <= g.active.Keys
    && h.active == Without(g.active, gone)
    && h.revoked == g.revoked + Only(g.active, gone)
    && (h.glossary == Surviving(g, p) || (h.glossary == g.glossary && gone == {}))
    && (h.log == g.log || (gone == Elements(p.ids) && h.log == g.log + Entries(p, p.ids)))
  }

  /** A conflict-free union of definitions, or proof that two facts disagree. */
  method RebuildGlossary(active: map<Id, Fact>, excluded: set<Id>) returns (r: Option<Glossary>)
    ensures r.Some? ==> IsUnion(r.value, Without(active, excluded))
    ensures r.None? ==> exists x, y :: x in Without(active, excluded) && y in Without(active, excluded)
                                       && !Agrees(active[x].defs, active[y].defs)
  {
    var rebuilt: Glossary := map[];
    var todo := active.Keys - excluded;
    ghost var done: map<Id, Fact> := map[];
    while todo != {}
      invariant todo <= active.Keys - excluded
      invariant done == Only(active, active.Keys - excluded - todo)
      invariant IsUnion(rebuilt, done)
      decreases todo
    {
      var x :| x in todo;
      var local := active[x].defs;
      if !Agrees(rebuilt, local) {
        var t :| t in rebuilt && t in local && rebuilt[t] != local[t];
        assert Introduced(done, t);
        ghost var y :| y in done && t in done[y].defs;
        assert !Agrees(active[y].defs, active[x].defs);
        return None;
      }
      UnionGrows(rebuilt, done, x, active[x]);
      rebuilt := rebuilt + local;
      todo := todo - {x};
      done := done[x := active[x]];
    }
    assert done == Without(active, excluded);
    return Some(rebuilt);
  }

  /** What `add` finds wrong with a fact, by the first check it fails. */
  ghost predicate Blames(g: Graph, universal: Glossary, id: Id, f: Fact, e: Error) {
    match e
    case DuplicatePredecessor => !Distinct(f.preds)
    case PredecessorRevoked => Distinct(f.preds) && exists i :: FirstInactive(g, f.preds, i) && f.preds[i] in g.revoked
    case PredecessorUnknown => Distinct(f.preds) && exists i :: FirstInactive(g, f.preds, i) && f.preds[i] !in g.revoked
    case FactRevoked => Founded(g, f.preds) && id in g.revoked
    case IdentityCollision => Founded(g, f.preds) && id !in g.revoked && id in g.active && !SameContent(g.active[id], f)
    case GlossaryConflict =>
      && Founded(g, f.preds) && id !in g.revoked && id !in g.active
      && exists t :: t in f.defs && ((t in g.glossary && g.glossary[t] != f.defs[t])
                                     || (t in universal && universal[t] != f.defs[t]))
    case _ => false
  }

  ghost predicate Founded(g: Graph, preds: seq<Id>) { Distinct(preds) && forall x :: x in preds ==> x in g.active }

  ghost predicate FirstInactive(g: Graph, preds: seq<Id>, i: int) {
    0 <= i < |preds| && preds[i] !in g.active && forall j :: 0 <= j < i ==> preds[j] in g.active
  }

  /** At most one check is the first to fail. */
  lemma BlameIsUnique(g: Graph, universal: Glossary, id: Id, f: Fact, d: Error, e: Error)
    requires Blames(g, universal, id, f, d) && Blames(g, universal, id, f, e) && g.active.Keys !! g.revoked.Keys
    ensures d == e && !Admissible(g, universal, id, f)
  {
    DistinctCounts(f.preds);
    if i, j :| FirstInactive(g, f.preds, i) && FirstInactive(g, f.preds, j) {
      assert i == j && f.preds[i] in f.preds;
    }
  }

  /** The duplicate check compares the length of the list with that of its set. */
  lemma {:induction false} DistinctCounts(s: seq<Id>)
    ensures |Elements(s)| <= |s|
    ensures |Elements(s)| == |s| <==> Distinct(s)
  {
    if s != [] {
      var n := |s| - 1;
      DistinctCounts(s[..n]);
      assert s == s[..n] + [s[n]];
      if s[n] in s[..n] {
        assert Elements(s) == Elements(s[..n]);
        var i :| 0 <= i < n && s[..n][i] == s[n];
        assert s[i] == s[n];
      } else {
        assert Elements(s) == Elements(s[..n]) + {s[n]};
      }
    }
  }

  function Cards(active: map<Id, Fact>, ids: seq<Id>): (r: seq<(Id, Fact)>)
    requires forall x :: x in ids ==> x in active
    ensures |r| == |ids| && forall i :: 0 <= i < |ids| ==> r[i] == (ids[i], active[ids[i]])
  {
    if ids == [] then [] else assert ids[0] in ids; [(ids[0], active[ids[0]])] + Cards(active, ids[1..])
  }

  ghost predicate ReachedFrom(e: Edges, roots: seq<Id>, x: Id) {
    exists r :: r in roots && r != BLANK && Reaches(e, r, x)
  }

  /** The dependency context of `roots`: one card with the stored contents for every active fact reached
      from a root, and every other id reached reported as revoked or missing. */
  ghost predicate IsContext(active: map<Id, Fact>, revokedIds: set<Id>, roots: seq<Id>, c: Context) {
    && (forall i, j :: 0 <= i < j < |c.cards| ==> c.cards[i].0 != c.cards[j].0)
    && (forall x, g :: (x, g) in c.cards <==> x in active && active[x] == g && ReachedFrom(EdgesOf(active), roots, x))
    && Distinct(c.missing) && Distinct(c.revoked)
    && (forall x :: x in c.revoked <==> ReachedFrom(EdgesOf(active), roots, x) && x !in active && x in revokedIds)
    && (forall x :: x in c.missing <==> ReachedFrom(EdgesOf(active), roots, x) && x !in active && x !in revokedIds)
  }

  /** The one context of `roots`: cards, missing and revoked ids, each in the order of the walk. */
  ghost function ContextOf(active: map<Id, Fact>, revokedIds: set<Id>, roots: seq<Id>): Context {
    var e := EdgesOf(active);
    var order := WalkOrder(e, roots, None);
    ReportedMembers(e, revokedIds, order, Active);
    Context(Cards(active, Reported(e, revokedIds, order, Active)), Reported(e, revokedIds, order, Missing),
            Reported(e, revokedIds, order, Revoked))
  }

  /** The dependency context a verifier sees, in walk order. */
  method CurrentContext(active: map<Id, Fact>, revokedIds: set<Id>, roots: seq<Id>) returns (c: Context)
    ensures c == ContextOf(active, revokedIds, roots)
    ensures IsContext(active, revokedIds, roots, c)
  {
    var e := EdgesOf(active);
    var visited, records, missing, gone := ContextWalk(e, revokedIds, roots, None);
    ReportedMembers(e, revokedIds, visited, Active);
    c := Context(Cards(active, records), missing, gone);
    ContextIsExact(active, revokedIds, roots, visited, c);
  }

  /** What the walk reports is the context. */
  lemma ContextIsExact(active: map<Id, Fact>, revokedIds: set<Id>, roots: seq<Id>, visited: seq<Visit>, c: Context)
    requires var e := EdgesOf(active);
      Ordered(visited) && Sound(e, Requested(roots), None, visited) && Complete(e, Requested(roots), None, visited)
    requires var e := EdgesOf(active); var records := Reported(e, revokedIds, visited, Active);
      && (forall x :: x in records ==> x in active)
      && c == Context(Cards(active, records), Reported(e, revokedIds, visited, Missing),
                      Reported(e, revokedIds, visited, Revoked))
    ensures IsContext(active, revokedIds, roots, c)
  {
    var e := EdgesOf(active);
    ReportedIsReached(e, revokedIds, roots, visited, Active);
    ReportedIsReached(e, revokedIds, roots, visited, Revoked);
    ReportedIsReached(e, revokedIds, roots, visited, Missing);
    CardsAreRecords(active, Reported(e, revokedIds, visited, Active), c.cards);
  }

  /** A report of the unbounded walk holds each reached id of its kind once. */
  lemma ReportedIsReached(e: Edges, revokedIds: set<Id>, roots: seq<Id>, visited: seq<Visit>, fate: Fate)
    requires Ordered(visited) && Sound(e, Requested(roots), None, visited)
    requires Complete(e, Requested(roots), None, visited)
    ensures Distinct(Reported(e, revokedIds, visited, fate))
    ensures forall x :: x in Reported(e, revokedIds, visited, fate) <==>
      ReachedFrom(e, roots, x) && FateOf(e, revokedIds, x) == fate
  {
    ReportedMembers(e, revokedIds, visited, fate);
    ReportedOnce(e, revokedIds, visited, fate);
    forall x ensures Listed(visited, x) <==> ReachedFrom(e, roots, x) { VisitedIsReached(e, roots, visited, x); }
  }

  lemma CardsAreRecords(active: map<Id, Fact>, records: seq<Id>, cards: seq<(Id, Fact)>)
    requires forall x :: x in records ==> x in active
    requires |cards| == |records|
    requires forall i :: 0 <= i < |records| ==> records[i] in active && cards[i] == (records[i], active[records[i]])
    ensures forall x, g :: (x, g) in cards <==> x in records && active[x] == g
  {
    forall x, g | x in records && active[x] == g ensures (x, g) in cards {
      var i :| 0 <= i < |records| && records[i] == x;
      assert cards[i] == (x, g);
    }
    forall x, g | (x, g) in cards ensures x in records && active[x] == g {
      var i :| 0 <= i < |cards| && cards[i] == (x, g);
      assert records[i] in records;
    }
  }

  /** The unbounded walk visits exactly what is reached. */
  lemma VisitedIsReached(e: Edges, roots: seq<Id>, visited: seq<Visit>, x: Id)
    requires Sound(e, Requested(roots), None, visited) && Complete(e, Requested(roots), None, visited)
    ensures Listed(visited, x) <==> ReachedFrom(e, roots, x)
  {
    var start := Requested(roots);
    ClosureIsReachability(e, start, x);
    if Listed(visited, x) {
      var i :| 0 <= i < |visited| && visited[i].id == x;
      assert AtDistance(e, start, x, visited[i].dist);
    }
    if ReachedFrom(e, roots, x) {
      var r :| r in roots && r != BLANK && Reaches(e, r, x);
      assert r in start;
      var k: nat :| AtDistance(e, start, x, k);
    }
  }

  /** The directory listing of active facts. */
  method Listing(active: map<Id, Fact>) returns (ids: seq<Id>)
    ensures forall x :: x in ids <==> x in active
  {
    ids := [];
    var todo := active.Keys;
    while todo != {}
      invariant todo <= active.Keys && forall x :: x in ids <==> x in active && x !in todo
      decreases todo
    {
      var x :| x in todo;
      ids, todo := ids + [x], todo - {x};
    }
  }

  /** Every journalled id is logged exactly once, also when the log was already rewritten. */
  method LogWith(log: seq<LogEntry>, p: Pending) returns (r: seq<LogEntry>)
    requires Distinct(p.ids)
    ensures (forall x :: x in p.ids ==> !Logged(log, x)) ==> r == log + Entries(p, p.ids)
    ensures (forall x :: x in p.ids ==> Logged(log, x)) ==> r == log
  {
    r := log;
    var logged := set i | 0 <= i < |log| :: log[i].id;
    for i := 0 to |p.ids|
      invariant forall x :: x in logged <==> Logged(log, x) || x in p.ids[..i]
      invariant (forall x :: x in p.ids ==> !Logged(log, x)) ==> r == log + Entries(p, p.ids[..i])
      invariant (forall x :: x in p.ids ==> Logged(log, x)) ==> r == log
    {
      assert p.ids[..i + 1] == p.ids[..i] + [p.ids[i]];
      EntriesPush(log, p, p.ids[..i], p.ids[i]);
      assert p.ids[i] !in p.ids[..i];
      if p.ids[i] !in logged {
        var root := if p.ids[i] == p.root then None else Some(p.root);
        r := r + [LogEntry(p.ids[i], root, p.revocation, p.reason)];
      }
      logged := logged + {p.ids[i]};
    }
    assert p.ids[..|p.ids|] == p.ids;
  }

  /** With no journal the graph invariant holds; with one, the files are on the way to the finished cascade. */
  ghost predicate StoreOk(state: Graph, universal: Glossary, pending: Option<Pending>, origin: Graph, gone: set<Id>,
                          rank: map<Id, nat>, clock: nat) {
    && (forall x :: x in rank ==> rank[x] < clock)
    && (pending.None? ==> Inv(state, universal, rank))
    && (pending.Some? ==> Inv(origin, universal, rank) && Underway(origin, pending.value, gone, state))
  }

  ghost predicate Underway(origin: Graph, p: Pending, gone: set<Id>, state: Graph) {
    ExactCascade(origin, p) && Unused(origin.log, p.revocation) && Midway(origin, p, gone, state)
  }

  lemma AddKeepsStore(g: Graph, universal: Glossary, origin: Graph, gone: set<Id>, rank: map<Id, nat>, clock: nat,
                      id: Id, f: Fact)
    requires StoreOk(g, universal, None, origin, gone, rank, clock) && Admissible(g, universal, id, f)
    requires id !in g.active
    ensures StoreOk(Added(g, id, f), universal, None, origin, gone, rank[id := clock], clock + 1)
  {
    AddKeepsInv(g, universal, rank, clock, id, f);
  }

  lemma ResumeKeepsStore(state: Graph, universal: Glossary, p: Pending, origin: Graph, gone: set<Id>, gone': set<Id>,
                         rank: map<Id, nat>, clock: nat)
    requires StoreOk(state, universal, Some(p), origin, gone, rank, clock)
    ensures StoreOk(Finish(origin, p), universal, None, origin, gone', rank, clock)
    ensures CompletedIds(Finish(origin, p).log, p.root) == p.ids
  {
    CascadeKeepsInv(origin, p, universal, rank);
    RepeatedRevokeAnswers(origin.log, p);
  }

  class Store {
    const hash: Fact -> Id
    const universal: Glossary
    const killsAt: nat -> bool
    var tick: nat
    var active: map<Id, Fact>
    var revoked: map<Id, Fact>
    var glossary: Glossary
    var log: seq<LogEntry>
    var pending: Option<Pending>
    ghost var rank: map<Id, nat>
    ghost var clock: nat
    ghost var origin: Graph
    ghost var gone: set<Id>

    ghost function State(): Graph
      reads this
    {
      Graph(active, revoked, glossary, log)
    }

    /** What the store stands for: a journalled cascade counts as done. */
    ghost function Meaning(): Graph
      reads this
    {
      if pending.None? then State() else Finish(origin, pending.value)
    }

    ghost predicate Valid()
      reads this
    {
      StoreOk(State(), universal, pending, origin, gone, rank, clock)
    }

    constructor (hash: Fact -> Id, universal: Glossary, killsAt: nat -> bool)
      ensures Valid() && pending.None? && State() == Graph(map[], map[], map[], [])
    {
      this.hash, this.universal, this.killsAt := hash, universal, killsAt;
      tick := 0;
      active, revoked, glossary, log, pending := map[], map[], map[], [], None;
      rank, clock, gone := map[], 0, {};
      origin := Graph(map[], map[], map[], []);
    }

    /** No kill strikes at the steps `from` to `to`. */
    ghost predicate Lived(from: nat, to: nat) { forall t :: from <= t < to ==> !killsAt(t) }

    /** A call is killed exactly if a kill strikes while it runs. */
    ghost predicate KilledSince(killed: bool, from: nat)
      reads this`tick
    {
      from <= tick && (killed <==> !Lived(from, tick))
    }

    method KilledNow() returns (k: bool)
      modifies this`tick
      ensures tick == old(tick) + 1 && k == killsAt(old(tick))
    {
      k := killsAt(tick);
      tick := tick + 1;
    }

    // ---------------------------------------------------------- revocation

    /** Move one journalled file, unless an earlier attempt already did. */
    method MoveFile(p: Pending, id: Id) returns (r: Reply<()>)
      requires Midway(origin, p, gone, State()) && glossary == Surviving(origin, p)
      requires id in p.ids && id in origin.active && origin.active.Keys !! origin.revoked.Keys
      modifies this`tick, this`active, this`revoked, this`gone
      ensures Midway(origin, p, gone, State()) && old(gone) <= gone
      ensures !r.Refused? && (r.Answer? ==> id in gone)
      ensures KilledSince(r.Killed?, old(tick))
    {
      var k := KilledNow();
      if k { return Killed; }
      if id in active && id in revoked { return Refused(Inconsistent); }
      if id in active {
        MoveOne(origin, gone, id);
        revoked := revoked[id := active[id]];
        active := active - {id};
        gone := gone + {id};
      } else if id !in revoked {
        return Refused(Inconsistent);
      }
      return Answer(());
    }

    method MoveFiles(p: Pending) returns (r: Reply<()>)
      requires Midway(origin, p, gone, State()) && glossary == Surviving(origin, p)
      requires Elements(p.ids) <= origin.active.Keys && origin.active.Keys !! origin.revoked.Keys
      modifies this`tick, this`active, this`revoked, this`gone
      ensures Midway(origin, p, gone, State())
      ensures !r.Refused? && (r.Answer? ==> gone == Elements(p.ids))
      ensures KilledSince(r.Killed?, old(tick))
    {
      r := Answer(());
      for i := 0 to |p.ids|
        invariant Midway(origin, p, gone, State()) && r.Answer? && KilledSince(false, old(tick))
        invariant forall j :: 0 <= j < i ==> p.ids[j] in gone
      {
        assert p.ids[i] in Elements(p.ids);
        r := MoveFile(p, p.ids[i]);
        if !r.Answer? { return; }
      }
    }

    /** Steps of a cascade once its journal exists: glossary, files, log. */
    method RunCascade(p: Pending) returns (r: Reply<()>)
      requires Midway(origin, p, gone, State()) && Distinct(p.ids) && Elements(p.ids) <= origin.active.Keys
      requires origin.active.Keys !! origin.revoked.Keys && LogIsExact(origin.log, origin.revoked)
      requires IsUnion(origin.glossary, origin.active)
      modifies this`tick, this`active, this`revoked, this`gone, this`glossary, this`log
      ensures Midway(origin, p, gone, State())
      ensures !r.Refused?
      ensures r.Answer? ==> State() == Finish(origin, p)
      ensures KilledSince(r.Killed?, old(tick))
    {
      r := WriteGlossary(p);
      if !r.Answer? { return; }
      r := MoveFiles(p);
      if !r.Answer? { return; }
      r := WriteLog(p);
    }

    /** The glossary of the facts that stay. */
    method WriteGlossary(p: Pending) returns (r: Reply<()>)
      requires Midway(origin, p, gone, State()) && Elements(p.ids) <= origin.active.Keys
      requires IsUnion(origin.glossary, origin.active)
      modifies this`tick, this`glossary
      ensures Midway(origin, p, gone, State())
      ensures !r.Refused? && (r.Answer? ==> glossary == Surviving(origin, p))
      ensures KilledSince(r.Killed?, old(tick))
    {
      var rebuilt := RebuildGlossary(active, Elements(p.ids));
      RebuildAgrees(origin, p, gone, active, rebuilt);
      if rebuilt.None? { return Refused(Inconsistent); }
      var k := KilledNow();
      if k { return Killed; }
      glossary := rebuilt.value;
      return Answer(());
    }

    /** The log of the whole cascade, in one replacement. */
    method WriteLog(p: Pending) returns (r: Reply<()>)
      requires Midway(origin, p, gone, State()) && glossary == Surviving(origin, p) && gone == Elements(p.ids)
      requires Distinct(p.ids) && Elements(p.ids) <= origin.active.Keys
      requires origin.active.Keys !! origin.revoked.Keys && LogIsExact(origin.log, origin.revoked)
      modifies this`tick, this`log
      ensures Midway(origin, p, gone, State())
      ensures !r.Refused? && (r.Answer? ==> State() == Finish(origin, p))
      ensures KilledSince(r.Killed?, old(tick))
    {
      var entries := LogWith(log, p);
      LogIsWhole(origin, p, log);
      var k := KilledNow();
      if k { return Killed; }
      log := entries;
      return Answer(());
    }

    /** `_resume_pending_revocation_unlocked`: finish the journalled cascade, if there is one. */
    method Resume() returns (r: Reply<Option<Pending>>)
      requires Valid()
      modifies this`tick, this`active, this`revoked, this`gone, this`glossary, this`log, this`pending
      ensures Valid() && !r.Refused?
      ensures KilledSince(r.Killed?, old(tick))
      ensures r.Answer? ==> pending.None? && r.value == old(pending)
      ensures r.Killed? ==> pending == old(pending)
      ensures Meaning() == old(Meaning())
      ensures r.Answer? && r.value.Some? ==> CompletedIds(log, r.value.value.root) == r.value.value.ids
    {
      if pending.None? { return Answer(None); }
      var p := pending.value;
      ResumeKeepsStore(State(), universal, p, origin, gone, Elements(p.ids), rank, clock);
      var ran := RunCascade(p);
      if !ran.Answer? { return Killed; }
      var cleared := ClearJournal(p);
      if !cleared { return Killed; }
      return Answer(Some(p));
    }

    /** Unlink the journal of a finished cascade. */
    method ClearJournal(p: Pending) returns (cleared: bool)
      requires pending == Some(p) && State() == Finish(origin, p) && gone == Elements(p.ids) && Valid()
      requires StoreOk(Finish(origin, p), universal, None, origin, Elements(p.ids), rank, clock)
      modifies this`tick, this`pending
      ensures Valid() && State() == old(State()) && pending == if cleared then None else Some(p)
      ensures KilledSince(!cleared, old(tick))
    {
      var k := KilledNow();
      if k { return false; }
      pending := None;
      return true;
    }

    /** The fact and everything that depends on it, from one listing of the active facts. */
    method Plan(id: Id, reason: string, revocation: Name) returns (p: Pending)
      requires id in active
      ensures p.root == id && p.revocation == revocation && p.reason == reason && ExactCascade(State(), p)
    {
      var listing := Listing(active);
      var dependents := Descendants(EdgesOf(active), listing, id);
      p := Pending(revocation, id, reason, [id] + dependents);
      CascadeIsExact(State(), p, dependents);
    }

    /** Compute a cascade and write its journal in one atomic replace. */
    method Journal(id: Id, reason: string, revocation: Name) returns (written: bool, p: Pending)
      requires Valid() && pending.None? && id in active && Unused(log, revocation)
      modifies this`tick, this`pending, this`origin, this`gone
      ensures Valid()
      ensures p.root == id && p.revocation == revocation && p.reason == reason && ExactCascade(old(State()), p)
      ensures KilledSince(!written, old(tick))
      ensures if written then pending == Some(p) && origin == old(State()) else pending.None?
    {
      p := Plan(id, reason, revocation);
      var k := KilledNow();
      if k { return false, p; }
      StartsMidway(State(), p);
      origin := State();
      gone := {};
      pending := Some(p);
      written := true;
    }

    method RevokeActive(id: Id, reason: string, revocation: Name) returns (r: Reply<seq<Id>>, ghost p: Pending)
      requires Valid() && pending.None? && id in active && Unused(log, revocation)
      modifies this
      ensures Valid() && !r.Refused?
      ensures KilledSince(r.Killed?, old(tick))
      ensures p.root == id && p.revocation == revocation && p.reason == reason && ExactCascade(old(State()), p)
      ensures r.Answer? ==> pending.None? && State() == Finish(old(State()), p) && r.value == p.ids
      ensures r.Answer? ==> CompletedIds(log, id) == r.value
      ensures r.Killed? ==> Meaning() == old(State()) || Meaning() == Finish(old(State()), p)
    {
      var written, journal := Journal(id, reason, revocation);
      p := journal;
      if !written { return Killed, p; }
      var resumed := Resume();
      r := if resumed.Answer? then Answer(journal.ids) else Killed;
    }

    /** Cascade-revoke a fact and everything that depends on it.  A killed call is all or nothing:
        nothing happened, or `Resume` will finish exactly this cascade. */
    method Revoke(id: Id, reason: string, revocation: Name) returns (r: Reply<seq<Id>>, ghost p: Pending)
      requires Valid() && Unused(Meaning().log, revocation)
      modifies this
      ensures Valid()
      ensures p.root == id && p.revocation == revocation && p.reason == reason
      ensures id in old(Meaning()).active && r.Answer? ==>
        ExactCascade(old(Meaning()), p) && State() == Finish(old(Meaning()), p) && r.value == p.ids
      ensures id !in old(Meaning()).active && !r.Killed? ==> State() == old(Meaning())
      ensures r.Answer? ==> CompletedIds(log, id) == r.value
      ensures KilledSince(r.Killed?, old(tick))
      ensures r.Refused? <==>
        !r.Killed? && id !in old(Meaning()).active && CompletedIds(old(Meaning()).log, id) == []
      ensures r.Refused? ==> r.error == UnknownFact
      ensures r.Answer? ==> r.value != []
      ensures !r.Killed? ==> pending.None?
      ensures Meaning() == old(Meaning()) ||
        (id in old(Meaning()).active && ExactCascade(old(Meaning()), p) && Meaning() == Finish(old(Meaning()), p))
    {
      p := Pending(revocation, id, reason, [id]);
      var resumed := Resume();
      if resumed.Killed? { return Killed, p; }
      if resumed.value.Some? && resumed.value.value.root == id {
        return Answer(resumed.value.value.ids), p;
      }
      if id !in active {
        if id in revoked {
          var completed := CompletedIds(log, id);
          if completed != [] { return Answer(completed), p; }
        } else {
          NeverLogged(log, id);
        }
        return Refused(UnknownFact), p;
      }
      r, p := RevokeActive(id, reason, revocation);
    }

    // -------------------------------------------------------------- adding

    /** The checks of `_add_unlocked`, in the order the program makes them. */
    method Check(f: Fact) returns (problem: Option<Error>)
      requires active.Keys !! revoked.Keys
      ensures problem.None? <==> Admissible(State(), universal, hash(f), f)
      ensures problem.Some? ==> Blames(State(), universal, hash(f), f, problem.value)
    {
      DistinctCounts(f.preds);
      if |Elements(f.preds)| != |f.preds| { return Some(DuplicatePredecessor); }
      for i := 0 to |f.preds|
        invariant forall j :: 0 <= j < i ==> f.preds[j] in active
      {
        assert f.preds[i] in f.preds;
        assert f.preds[i] !in active ==> FirstInactive(State(), f.preds, i);
        if f.preds[i] in revoked { return Some(PredecessorRevoked); }
        if f.preds[i] !in active { return Some(PredecessorUnknown); }
      }
      var id := hash(f);
      if id in revoked { return Some(FactRevoked); }
      if id in active { return if SameContent(active[id], f) then None else Some(IdentityCollision); }
      return if Agrees(glossary, f.defs) && Agrees(universal, f.defs) then None else Some(GlossaryConflict);
    }

    /** Write the fact and merge its definitions; an exact duplicate is only read. */
    method Commit(f: Fact) returns (r: Reply<Id>)
      requires Valid() && pending.None? && Admissible(State(), universal, hash(f), f)
      modifies this`tick, this`active, this`glossary, this`rank, this`clock
      ensures Valid() && !r.Refused?
      ensures KilledSince(r.Killed?, old(tick))
      ensures r.Answer? ==>
        && r.value == hash(f)
        && State() == if hash(f) in old(active) then old(State()) else Added(old(State()), hash(f), f)
      ensures r.Killed? ==> State() == old(State())
    {
      var id := hash(f);
      if id in active { return Answer(id); }
      var k := KilledNow();
      if k { return Killed; }
      Write(id, f);
      return Answer(id);
    }

    method Write(id: Id, f: Fact)
      requires Valid() && pending.None? && id !in active && Admissible(State(), universal, id, f)
      modifies this`active, this`glossary, this`rank, this`clock
      ensures Valid() && State() == Added(old(State()), id, f)
    {
      AddKeepsStore(State(), universal, origin, gone, rank, clock, id, f);
      active, glossary := active[id := f], glossary + f.defs;
      rank, clock := rank[id := clock], clock + 1;
    }

    /** `_add_unlocked`. */
    method AddUnlocked(candidate: Fact) returns (r: Reply<Id>)
      requires Valid() && pending.None?
      modifies this`tick, this`active, this`glossary, this`rank, this`clock
      ensures Valid()
      ensures KilledSince(r.Killed?, old(tick))
      ensures var f := candidate.(preds := DropBlank(candidate.preds)); var id := hash(f); var g := old(State());
        && (r.Answer? ==> r.value == id && Admissible(g, universal, id, f)
                          && State() == if id in g.active then g else Added(g, id, f))
        && (r.Refused? ==> !Admissible(g, universal, id, f) && Blames(g, universal, id, f, r.error))
        && (!r.Answer? ==> State() == g)
    {
      var f := candidate.(preds := DropBlank(candidate.preds));
      var problem := Check(f);
      if problem.Some? { return Refused(problem.value); }
      r := Commit(f);
    }

    /** Answers the id exactly for an admissible fact, unless a kill strikes. */
    method Add(candidate: Fact) returns (r: Reply<Id>)
      requires Valid()
      modifies this
      ensures Valid()
      ensures KilledSince(r.Killed?, old(tick))
      ensures var f := candidate.(preds := DropBlank(candidate.preds)); var id := hash(f); var g := old(Meaning());
        && (r.Answer? ==> pending.None? && r.value == id && Admissible(g, universal, id, f)
                          && State() == if id in g.active then g else Added(g, id, f))
        && (r.Refused? ==> !Admissible(g, universal, id, f) && Blames(g, universal, id, f, r.error))
        && (!r.Answer? ==> Meaning() == g)
    {
      var resumed := Resume();
      if resumed.Killed? { return Killed; }
      r := AddUnlocked(candidate);
    }

    /** Add only if the dependency context is still the one that was verified: it is exactly the closure
        of the candidate's predecessors, and no card of it has been revoked or replaced in between.  It is refused as
        changed only then; any other refusal blames the fact as `Add` does. */
    method AddIfContextUnchanged(expected: Context, candidateId: Id, candidate: Fact) returns (r: Reply<Id>)
      requires Valid()
      modifies this
      ensures Valid()
      ensures KilledSince(r.Killed?, old(tick))
      ensures var f := candidate.(preds := DropBlank(candidate.preds)); var g := old(Meaning());
        var same := candidateId == hash(f) && expected == ContextOf(g.active, g.revoked.Keys, f.preds);
        && (r == Refused(ContextChanged) <==> !r.Killed? && !same)
        && (r.Answer? <==> !r.Killed? && same && Admissible(g, universal, candidateId, f))
        && (r.Refused? && same ==> Blames(g, universal, candidateId, f, r.error))
        && (r.Answer? ==>
              && r.value == candidateId == hash(f) && pending.None?
              && IsContext(g.active, g.revoked.Keys, f.preds, expected) && Admissible(g, universal, candidateId, f)
              && State() == if candidateId in g.active then g else Added(g, candidateId, f))
        && (!r.Answer? ==> Meaning() == g)
    {
      var resumed := Resume();
      if resumed.Killed? { return Killed; }
      var preds := DropBlank(candidate.preds);
      if hash(candidate.(preds := preds)) != candidateId { return Refused(ContextChanged); }
      var current := CurrentContext(active, revoked.Keys, preds);
      if current != expected { return Refused(ContextChanged); }
      r := AddUnlocked(candidate);
    }

    // ---------------------------------------------------------------- runs

    method Apply(op: Op)
      requires Valid() && (op.RevokeOp? ==> Unused(Meaning().log, op.revocation))
      modifies this
      ensures Valid() && Later(old(Meaning()), Meaning())
      ensures forall r :: Unused(old(Meaning()).log, r) && !(op.RevokeOp? && op.revocation == r) ==>
        Unused(Meaning().log, r)
    {
      ghost var g := Meaning();
      MeaningHolds(this);
      match op {
        case AddOp(f) => var _ := Add(f);
        case ContextAddOp(expected, id, f) => var _ := AddIfContextUnchanged(expected, id, f);
        case ResumeOp => var _ := Resume();
        case RevokeOp(id, reason, revocation) =>
          var _, p := Revoke(id, reason, revocation);
          if Meaning() != g {
            CascadeIsLater(g, p);
            forall r | Unused(g.log, r) && revocation != r ensures Unused(Meaning().log, r) {
              StillUnused(g.log, p, r);
            }
          }
      }
    }

    /** Any run of adds, context-checked adds, revocations and resumptions, killed anywhere, keeps the graph
        invariant; a revoked id is never active again and a finished revoke keeps its answer. */
    method Run(ops: seq<Op>)
      requires Valid()
      requires forall i, j :: 0 <= i < j < |ops| && ops[i].RevokeOp? && ops[j].RevokeOp? ==>
        ops[i].revocation != ops[j].revocation
      requires forall i :: 0 <= i < |ops| && ops[i].RevokeOp? ==> Unused(Meaning().log, ops[i].revocation)
      modifies this
      ensures Valid() && Later(old(Meaning()), Meaning())
      ensures exists r :: Inv(Meaning(), universal, r)
      ensures forall x :: x in old(Meaning()).revoked ==> x !in Meaning().active
    {
      for n := 0 to |ops|
        invariant Valid() && Later(old(Meaning()), Meaning())
        invariant forall i :: n <= i < |ops| && ops[i].RevokeOp? ==> Unused(Meaning().log, ops[i].revocation)
      {
        ghost var g := Meaning();
        Apply(ops[n]);
        LaterTransitive(old(Meaning()), g, Meaning());
      }
      MeaningHolds(this);
    }

    /** However often the process dies while revoking, once a later attempt gets through the graph
        is the one an uninterrupted revoke of the same fact produces, or was never touched; and an attempt at which no
        kill strikes gets through. */
    method RevokeDespiteKills(id: Id, reason: string, revocation: Name, attempts: nat)
        returns (ghost p: Pending, ghost last: nat)
      requires Valid() && pending.None? && id in active && Unused(log, revocation)
      modifies this
      ensures Valid()
      ensures pending.None? ==>
        State() == old(State()) || (ExactCascade(old(State()), p) && State() == Finish(old(State()), p))
      ensures pending.None? && State() != old(State()) ==> CompletedIds(log, id) == p.ids
      ensures old(tick) <= last <= tick && (Lived(last, tick) ==> pending.None?)
    {
      last := tick;
      var r;
      r, p := Revoke(id, reason, revocation);
      for i := 0 to attempts
        invariant Valid() && old(tick) <= last <= tick && (Lived(last, tick) ==> pending.None?)
        invariant Meaning() == old(State()) || (ExactCascade(old(State()), p) && Meaning() == Finish(old(State()), p))
      {
        last := tick;
        var _ := Resume();
      }
      if pending.None? && State() != old(State()) { RepeatedRevokeAnswers(old(State()).log, p); }
    }
  }

  datatype Context = Context(cards: seq<(Id, Fact)>, missing: seq<Id>, revoked: seq<Id>)

  datatype Op =
    | AddOp(fact: Fact)
    | ContextAddOp(expected: Context, candidateId: Id, fact: Fact)
    | RevokeOp(id: Id, reason: string, revocation: Name)
    | ResumeOp

  /** What the store stands for always satisfies the graph invariant. */
  lemma MeaningHolds(s: Store)
    requires s.Valid()
    ensures Inv(s.Meaning(), s.universal, s.rank)
  {
    if s.pending.Some? { CascadeKeepsInv(s.origin, s.pending.value, s.universal, s.rank); }
  }

  lemma MoveOne(g: Graph, gone: set<Id>, x: Id)
    requires x in g.active && x !in gone
    ensures Without(g.active, gone + {x}) == Without(g.active, gone) - {x}
    ensures g.revoked + Only(g.active, gone + {x}) == (g.revoked + Only(g.active, gone))[x := g.active[x]]
  {}

  /** Rebuilding while files move always yields the surviving definitions, never a conflict. */
  lemma RebuildAgrees(g: Graph, p: Pending, gone: set<Id>, active: map<Id, Fact>, rebuilt: Option<Glossary>)
    requires IsUnion(g.glossary, g.active) && gone <= Elements(p.ids) && active == Without(g.active, gone)
    requires rebuilt.Some? ==> IsUnion(rebuilt.value, Without(active, Elements(p.ids)))
    requires rebuilt.None? ==>
      exists x, y :: x in Without(active, Elements(p.ids)) && y in Without(active, Elements(p.ids))
                                              && !Agrees(active[x].defs, active[y].defs)
    ensures rebuilt == Some(Surviving(g, p))
  {
    var rest := Without(g.active, Elements(p.ids));
    assert Without(active, Elements(p.ids)) == rest;
    SurvivingIsUnion(g, p);
    if rebuilt.Some? {
      UnionIsUnique(rebuilt.value, Surviving(g, p), rest);
    } else {
      var x, y :| x in rest && y in rest && !Agrees(active[x].defs, active[y].defs);
      NoConflict(g.glossary, g.active, x, y);
    }
  }

  /** The journalled ids are all logged or none is. */
  lemma LogIsWhole(g: Graph, p: Pending, log: seq<LogEntry>)
    requires LogIsExact(g.log, g.revoked) && g.active.Keys !! g.revoked.Keys && Elements(p.ids) <= g.active.Keys
    requires log == g.log || log == g.log + Entries(p, p.ids)
    ensures log == g.log ==> forall x :: x in p.ids ==> !Logged(log, x)
    ensures log != g.log ==> forall x :: x in p.ids ==> Logged(log, x)
  {
    forall x | x in p.ids ensures x !in g.revoked { assert x in Elements(p.ids); }
    if log != g.log {
      forall x | x in p.ids ensures Logged(log, x) {
        var i :| 0 <= i < |p.ids| && p.ids[i] == x;
        assert log[|g.log| + i].id == x;
      }
    }
  }

  lemma CascadeIsExact(g: Graph, p: Pending, dependents: seq<Id>)
    requires p.ids == [p.root] + dependents && p.root in g.active && Distinct(dependents) && p.root !in dependents
    requires forall x :: x in dependents <==>
      x != p.root && x in EdgesOf(g.active) && Reaches(EdgesOf(g.active), x, p.root)
    ensures ExactCascade(g, p)
  {
    ReachesSelf(EdgesOf(g.active), p.root);
    forall x ensures x in p.ids <==> x == p.root || x in dependents {}
  }

  lemma StartsMidway(g: Graph, p: Pending)
    ensures Midway(g, p, {}, g)
  {
    assert Without(g.active, {}) == g.active;
    assert g.revoked + Only(g.active, {}) == g.revoked;
  }
}
