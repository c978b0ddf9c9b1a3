/** The fact graph as a whole: adding verified facts and revoking them with everything that
    depends on them.  Files are modelled at the visible level, a rename being one atomic step;
    an arbitrary schedule may kill the process before any step of a cascade. */
module FactGraph {
  import opened Wrappers
  import opened Dag

  /** Terms and definitions, of which only equality matters here. */
  type Glossary = map<Name, Name>

  /** The content that is hashed into a fact id, with statement and proof whitespace-normalised. */
  datatype Fact = Fact(problem: string, preds: seq<Id>, defs: Glossary, statement: Name, proof: string)

  datatype LogEntry = LogEntry(id: Id, dependentOf: Option<Id>, revocation: Name, reason: string)

  datatype Pending = Pending(revocation: Name, root: Id, reason: string, ids: seq<Id>)

  datatype Graph = Graph(active: map<Id, Fact>, revoked: map<Id, Fact>, glossary: Glossary, log: seq<LogEntry>)

  function EdgesOf(active: map<Id, Fact>): Edges { map x | x in active :: active[x].preds }

  // -------------------------------------------------------------- invariant

  ghost predicate PredecessorClosed(active: map<Id, Fact>) {
    forall x, y :: x in active && y in active[x].preds ==> y in active
  }

  /** `glossary` is the conflict-free union of the definitions in `facts`. */
  ghost predicate IsUnion(glossary: Glossary, facts: map<Id, Fact>) {
    && (forall x, t :: x in facts && t in facts[x].defs ==> t in glossary && glossary[t] == facts[x].defs[t])
    && (forall t :: t in glossary ==> Introduced(facts, t))
  }

  ghost predicate Introduced(facts: map<Id, Fact>, t: Name) {
    exists x :: x in facts && t in facts[x].defs
  }

  predicate Agrees(a: Glossary, b: Glossary) {
    forall t :: t in a && t in b ==> a[t] == b[t]
  }

  ghost predicate LogIsExact(log: seq<LogEntry>, revoked: map<Id, Fact>) {
    && (forall i, j :: 0 <= i < j < |log| ==> log[i].id != log[j].id)
    && (forall x :: x in revoked <==> Logged(log, x))
  }

  ghost predicate Logged(log: seq<LogEntry>, x: Id) {
    exists i :: 0 <= i < |log| && log[i].id == x
  }

  ghost predicate Inv(g: Graph, universal: Glossary, rank: map<Id, nat>) {
    && PredecessorClosed(g.active)
    && Ranked(EdgesOf(g.active), rank)
    && g.active.Keys !! g.revoked.Keys
    && IsUnion(g.glossary, g.active)
    && Agrees(g.glossary, universal)
    && LogIsExact(g.log, g.revoked)
  }

  /** The union is unique, so rebuilding it from the facts gives back the stored glossary. */
  lemma UnionIsUnique(a: Glossary, b: Glossary, facts: map<Id, Fact>)
    requires IsUnion(a, facts) && IsUnion(b, facts)
    ensures a == b
  {
    forall t | t in a ensures t in b && a[t] == b[t] { assert Introduced(facts, t); }
    forall t | t in b ensures t in a { assert Introduced(facts, t); }
  }

  /** Facts whose definitions all come from one glossary never conflict. */
  lemma NoConflict(glossary: Glossary, facts: map<Id, Fact>, x: Id, y: Id)
    requires IsUnion(glossary, facts) && x in facts && y in facts
    ensures Agrees(facts[x].defs, facts[y].defs)
  {
    forall t | t in facts[x].defs && t in facts[y].defs ensures facts[x].defs[t] == facts[y].defs[t] {
      assert t in glossary;
    }
  }

  // ------------------------------------------------------- revoking a set

  function Without(facts: map<Id, Fact>, ids: set<Id>): map<Id, Fact> { facts - ids }

  function Only(facts: map<Id, Fact>, ids: set<Id>): map<Id, Fact> { map x | x in facts && x in ids :: facts[x] }

  function EntryFor(p: Pending, id: Id): LogEntry {
    LogEntry(id, if id == p.root then None else Some(p.root), p.revocation, p.reason)
  }

  function Entries(p: Pending, ids: seq<Id>): (r: seq<LogEntry>)
    ensures |r| == |ids| && forall i :: 0 <= i < |ids| ==> r[i] == EntryFor(p, ids[i])
  {
    seq(|ids|, i requires 0 <= i < |ids| => EntryFor(p, ids[i]))
  }

  /** A journalled cascade names exactly its root and everything that depends on it. */
  ghost predicate ExactCascade(g: Graph, p: Pending) {
    && p.ids != [] && p.ids[0] == p.root && Distinct(p.ids) && Elements(p.ids) <= g.active.Keys
    && IsDependents(EdgesOf(g.active), p.root, p.ids)
  }

  ghost predicate IsDependents(e: Edges, root: Id, ids: seq<Id>) {
    forall x {:trigger Reaches(e, x, root)} :: x in ids <==> x in e && Reaches(e, x, root)
  }

  /** The stored definitions that a surviving fact introduces. */
  ghost function Surviving(g: Graph, p: Pending): Glossary {
    map t | t in g.glossary && Introduced(Without(g.active, Elements(p.ids)), t) :: g.glossary[t]
  }

  lemma SurvivingIsUnion(g: Graph, p: Pending)
    requires IsUnion(g.glossary, g.active)
    ensures IsUnion(Surviving(g, p), Without(g.active, Elements(p.ids)))
  {
    var rest := Without(g.active, Elements(p.ids));
    forall x, t | x in rest && t in rest[x].defs
      ensures t in Surviving(g, p) && Surviving(g, p)[t] == rest[x].defs[t]
    {
      assert x in g.active && t in g.active[x].defs;
      assert Introduced(rest, t);
    }
  }

  /** The graph after the cascade, defined without reference to how it is carried out. */
  ghost function Finish(g: Graph, p: Pending): Graph {
    Graph(Without(g.active, Elements(p.ids)), g.revoked + Only(g.active, Elements(p.ids)), Surviving(g, p),
          g.log + Entries(p, p.ids))
  }

  /** Removing a fact together with its dependents leaves a closed, ranked graph whose glossary
      is exactly what the surviving facts define. */
  lemma CascadeKeepsInv(g: Graph, p: Pending, universal: Glossary, rank: map<Id, nat>)
    requires Inv(g, universal, rank) && ExactCascade(g, p)
    ensures Inv(Finish(g, p), universal, rank)
  {
    var h := Finish(g, p);
    var e := EdgesOf(g.active);
    forall x, y | x in h.active && y in h.active[x].preds ensures y in h.active {
      assert y in p.ids ==> Reaches(e, y, p.root);
      if y in p.ids { ReachesStep(e, x, y, p.root); }
    }
    forall x | x in h.active ensures RankedAt(EdgesOf(h.active)[x], rank, x) {
      assert RankedAt(e[x], rank, x);
    }
    SurvivingIsUnion(g, p);
    CascadeKeepsLog(g, p);
  }

  lemma CascadeKeepsLog(g: Graph, p: Pending)
    requires LogIsExact(g.log, g.revoked) && g.active.Keys !! g.revoked.Keys
    requires Distinct(p.ids) && Elements(p.ids) <= g.active.Keys
    ensures LogIsExact(Finish(g, p).log, Finish(g, p).revoked)
  {
    var h := Finish(g, p);
    forall x | x in p.ids ensures !Logged(g.log, x) { assert x in Elements(p.ids); }
    LogStaysDistinct(g.log, p);
    forall x ensures x in h.revoked <==> Logged(h.log, x) { LoggedAfter(g.log, p, x); }
  }

  lemma LogStaysDistinct(log: seq<LogEntry>, p: Pending)
    requires forall i, j :: 0 <= i < j < |log| ==> log[i].id != log[j].id
    requires Distinct(p.ids) && forall x :: x in p.ids ==> !Logged(log, x)
    ensures var h := log + Entries(p, p.ids); forall i, j :: 0 <= i < j < |h| ==> h[i].id != h[j].id
  {
    var h, n := log + Entries(p, p.ids), |log|;
    forall i, j | 0 <= i < j < |h| ensures h[i].id != h[j].id {
      if i < n <= j { assert Logged(log, h[i].id) && p.ids[j - n] in p.ids; }
    }
  }

  lemma LoggedAfter(log: seq<LogEntry>, p: Pending, x: Id)
    ensures Logged(log + Entries(p, p.ids), x) <==> Logged(log, x) || x in p.ids
  {
    var h, n := log + Entries(p, p.ids), |log|;
    if Logged(log, x) { var i :| 0 <= i < n && log[i].id == x; assert h[i].id == x; }
    if x in p.ids { var i :| 0 <= i < |p.ids| && p.ids[i] == x; assert h[n + i].id == x; }
    if Logged(h, x) {
      var i :| 0 <= i < |h| && h[i].id == x;
      if i < n { assert log[i].id == x; } else { assert p.ids[i - n] == x; }
    }
  }

  // ------------------------------------------------------- revocation log

  /** Ids logged under one revocation, in log order. */
  function IdsOf(log: seq<LogEntry>, revocation: Name): seq<Id> {
    if log == [] then []
    else
      var rest := IdsOf(log[..|log| - 1], revocation);
      if log[|log| - 1].revocation == revocation then rest + [log[|log| - 1].id] else rest
  }

  /** The revocation under which `id` was last revoked as a root. */
  function RootRevocation(log: seq<LogEntry>, id: Id): Option<Name> {
    if log == [] then None
    else if log[|log| - 1].id == id && log[|log| - 1].dependentOf == None then Some(log[|log| - 1].revocation)
    else RootRevocation(log[..|log| - 1], id)
  }

  /** What a repeated revoke of `id` answers. */
  function CompletedIds(log: seq<LogEntry>, id: Id): seq<Id> {
    match RootRevocation(log, id)
    case None => []
    case Some(revocation) => IdsOf(log, revocation)
  }

  ghost predicate Unused(log: seq<LogEntry>, revocation: Name) {
    forall i :: 0 <= i < |log| ==> log[i].revocation != revocation
  }

  lemma StillUnused(log: seq<LogEntry>, p: Pending, revocation: Name)
    requires Unused(log, revocation) && revocation != p.revocation
    ensures Unused(log + Entries(p, p.ids), revocation)
  {}

  lemma {:induction false} NoneLogged(log: seq<LogEntry>, revocation: Name)
    requires Unused(log, revocation)
    ensures IdsOf(log, revocation) == []
  {
    if log != [] { NoneLogged(log[..|log| - 1], revocation); }
  }

  lemma LogPush(log: seq<LogEntry>, e: LogEntry, revocation: Name, id: Id)
    ensures IdsOf(log + [e], revocation) ==
      if e.revocation == revocation then IdsOf(log, revocation) + [e.id] else IdsOf(log, revocation)
    ensures RootRevocation(log + [e], id) ==
      if e.id == id && e.dependentOf == None then Some(e.revocation) else RootRevocation(log, id)
  {
    assert (log + [e])[..|log|] == log;
  }

  lemma EntriesPush(log: seq<LogEntry>, p: Pending, ids: seq<Id>, id: Id)
    ensures log + Entries(p, ids + [id]) == (log + Entries(p, ids)) + [EntryFor(p, id)]
  {}

  lemma {:induction false} LogAfterAppend(log: seq<LogEntry>, p: Pending, ids: seq<Id>, revocation: Name, id: Id)
    ensures IdsOf(log + Entries(p, ids), revocation) ==
      if revocation == p.revocation then IdsOf(log, revocation) + ids else IdsOf(log, revocation)
    ensures RootRevocation(log + Entries(p, ids), id) ==
      if id == p.root && id in ids then Some(p.revocation) else RootRevocation(log, id)
    decreases |ids|
  {
    if ids == [] {
      assert log + Entries(p, ids) == log;
      assert IdsOf(log, revocation) + ids == IdsOf(log, revocation);
    } else {
      var fewer, last := ids[..|ids| - 1], ids[|ids| - 1];
      assert ids == fewer + [last];
      LogAfterAppend(log, p, fewer, revocation, id);
      EntriesPush(log, p, fewer, last);
      LogPush(log + Entries(p, fewer), EntryFor(p, last), revocation, id);
      assert (IdsOf(log, revocation) + fewer) + [last] == IdsOf(log, revocation) + ids;
    }
  }

  /** A finished cascade answers a repeated revoke of its root with the same list ... */
  lemma RepeatedRevokeAnswers(log: seq<LogEntry>, p: Pending)
    requires Unused(log, p.revocation) && p.root in p.ids
    ensures CompletedIds(log + Entries(p, p.ids), p.root) == p.ids
  {
    LogAfterAppend(log, p, p.ids, p.revocation, p.root);
    NoneLogged(log, p.revocation);
  }

  /** ... and later cascades do not change that answer. */
  lemma LaterCascadeKeepsAnswer(log: seq<LogEntry>, p: Pending, id: Id)
    requires Unused(log, p.revocation) && id != p.root
    ensures CompletedIds(log + Entries(p, p.ids), id) == CompletedIds(log, id)
  {
    RootIsUsed(log, id);
    LogAfterAppend(log, p, p.ids, RootRevocation(log, id).GetOr(p.revocation), id);
  }

  /** What no later operation undoes: a revoked id stays revoked, and a finished revoke keeps its answer. */
  ghost predicate Later(a: Graph, b: Graph) {
    && (forall x :: x in a.revoked ==> x in b.revoked)
    && (forall id :: CompletedIds(a.log, id) != [] ==> CompletedIds(b.log, id) == CompletedIds(a.log, id))
  }

  lemma LaterTransitive(a: Graph, b: Graph, c: Graph)
    requires Later(a, b) && Later(b, c)
    ensures Later(a, c)
  {}

  /** A cascade revokes an active root, which no finished revoke can have answered for. */
  lemma CascadeIsLater(g: Graph, p: Pending)
    requires LogIsExact(g.log, g.revoked) && g.active.Keys !! g.revoked.Keys
    requires ExactCascade(g, p) && Unused(g.log, p.revocation)
    ensures Later(g, Finish(g, p))
  {
    assert p.ids[0] in Elements(p.ids);
    assert !Logged(g.log, p.root) by { assert p.root !in g.revoked; }
    NeverLogged(g.log, p.root);
    forall id | CompletedIds(g.log, id) != [] ensures CompletedIds(Finish(g, p).log, id) == CompletedIds(g.log, id) {
      LaterCascadeKeepsAnswer(g.log, p, id);
    }
  }

  lemma {:induction false} NeverLogged(log: seq<LogEntry>, id: Id)
    requires !Logged(log, id)
    ensures RootRevocation(log, id) == None && CompletedIds(log, id) == []
  {
    if log != [] {
      var fewer := log[..|log| - 1];
      assert log[|log| - 1].id != id;
      assert Logged(fewer, id) ==> Logged(log, id);
      NeverLogged(fewer, id);
    }
  }

  lemma {:induction false} RootIsUsed(log: seq<LogEntry>, id: Id)
    ensures RootRevocation(log, id).Some? ==>
      exists i :: 0 <= i < |log| && log[i].revocation == RootRevocation(log, id).value
  {
    if log != [] && !(log[|log| - 1].id == id && log[|log| - 1].dependentOf == None) {
      RootIsUsed(log[..|log| - 1], id);
    }
  }

  // ------------------------------------------------------------------ adding

  /** The named ids, in order. */
  function DropBlank(ids: seq<Id>): (r: seq<Id>)
    ensures BLANK !in ids ==> r == ids
    ensures forall x :: multiset(r)[x] == if x == BLANK then 0 else multiset(ids)[x]
  {
    assert ids != [] ==> ids == [ids[0]] + ids[1..];
    if ids == [] then [] else (if ids[0] == BLANK then [] else [ids[0]]) + DropBlank(ids[1..])
  }

  function Added(g: Graph, id: Id, f: Fact): Graph {
    g.(active := g.active[id := f], glossary := g.glossary + f.defs)
  }

  /** The order in which predecessors are listed is not part of a fact's identity. */
  predicate SameContent(a: Fact, b: Fact) {
    a.(preds := []) == b.(preds := []) && Elements(a.preds) == Elements(b.preds)
  }

  /** When `add` accepts a fact, stated on the graph rather than on the order of the checks. */
  ghost predicate Admissible(g: Graph, universal: Glossary, id: Id, f: Fact) {
    && |Elements(f.preds)| == |f.preds|
    && (forall x :: x in f.preds ==> x in g.active)
    && id !in g.revoked
    && (if id in g.active
        then
          var a := g.active[id];
          && a.problem == f.problem && a.statement == f.statement && a.proof == f.proof && a.defs == f.defs
          && Elements(a.preds) == Elements(f.preds)
        else Agrees(g.glossary, f.defs) && Agrees(universal, f.defs))
  }

  lemma UnionGrows(g: Glossary, facts: map<Id, Fact>, x: Id, f: Fact)
    requires IsUnion(g, facts) && x !in facts && Agrees(g, f.defs)
    ensures IsUnion(g + f.defs, facts[x := f])
  {
    var more := facts[x := f];
    forall t | t in g + f.defs ensures Introduced(more, t) {
      if t in f.defs { assert x in more && t in more[x].defs; }
      else { assert Introduced(facts, t); var y :| y in facts && t in facts[y].defs; assert t in more[y].defs; }
    }
  }

  /** A new fact ranks above everything it cites, and citing only active facts keeps the graph closed. */
  lemma AddKeepsInv(g: Graph, universal: Glossary, rank: map<Id, nat>, clock: nat, id: Id, f: Fact)
    requires Inv(g, universal, rank) && (forall x :: x in rank ==> rank[x] < clock)
    requires Admissible(g, universal, id, f) && id !in g.active
    ensures Inv(Added(g, id, f), universal, rank[id := clock])
  {
    var h, r := Added(g, id, f), rank[id := clock];
    UnionGrows(g.glossary, g.active, id, f);
    forall x | x in h.active ensures RankedAt(EdgesOf(h.active)[x], r, x) {
      if x != id {
        assert RankedAt(EdgesOf(g.active)[x], rank, x);
      } else {
        forall y | y in f.preds ensures y in r && r[y] < r[x] {
          assert RankedAt(EdgesOf(g.active)[y], rank, y);
        }
      }
    }
  }

  /** Every fact an active fact depends on, however remotely, is active: its dependency context
      has no missing and no revoked entry. */
  lemma ContextIsComplete(g: Graph, universal: Glossary, rank: map<Id, nat>, roots: set<Id>, x: Id, k: nat)
    requires Inv(g, universal, rank) && roots <= g.active.Keys
    requires AtDistance(EdgesOf(g.active), roots, x, k)
    ensures x in g.active && x !in g.revoked
  {
    var e := EdgesOf(g.active);
    var r, p :| r in roots && ChainFrom(e, r, p, x) && |p| - 1 == k;
    DownwardClosed(e, g.active.Keys, r, p, x);
  }
}
