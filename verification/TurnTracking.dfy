/** The app-server client's view of which turn a thread is on. */
module TurnTracking {
  import opened Wrappers

  datatype Identity = Identity(thread: Name, turn: Name)

  datatype Client =
    Client(active: map<Name, Name>, bindings: map<Name, Name>, terminal: set<Identity>, tracked: set<Identity>)

  const MAX_TRACKED_TURN_IDENTITIES := 16

  const NoTurns := Client(map[], map[], {}, {})

  /** An active turn is the one its thread is bound to, and is not terminal. */
  ghost predicate ClientOk(c: Client) {
    && (forall t :: t in c.active ==>
         t in c.bindings && c.bindings[t] == c.active[t] && Identity(t, c.active[t]) !in c.terminal)
    && (forall t :: t in c.bindings ==> Identity(t, c.bindings[t]) in c.tracked)
    && c.terminal <= c.tracked && |c.tracked| <= MAX_TRACKED_TURN_IDENTITIES
  }

  /** What never goes back during the life of one client. */
  ghost predicate ClientLater(a: Client, b: Client) {
    && (forall t :: t in a.bindings ==> t in b.bindings && b.bindings[t] == a.bindings[t])
    && a.terminal <= b.terminal && a.tracked <= b.tracked
  }

  /** Whether the identity may be tracked, and bound to its thread if `bind`. */
  predicate CanTrack(c: Client, i: Identity, bind: bool) {
    && (bind ==> (i.thread in c.bindings ==> c.bindings[i.thread] == i.turn) && i !in c.terminal)
    && (i in c.tracked || |c.tracked| < MAX_TRACKED_TURN_IDENTITIES)
  }

  /** `turn/started` and the adoption of a recovered turn. */
  predicate CanStart(c: Client, i: Identity) {
    CanTrack(c, i, true) && (i.thread in c.active ==> c.active[i.thread] == i.turn)
  }

  function Started(c: Client, i: Identity): Client {
    c.(active := c.active[i.thread := i.turn], bindings := c.bindings[i.thread := i.turn], tracked := c.tracked + {i})
  }

  function Completed(c: Client, i: Identity): Client {
    c.(terminal := c.terminal + {i}, tracked := c.tracked + {i},
       active := if i.thread in c.active && c.active[i.thread] == i.turn then c.active - {i.thread} else c.active)
  }

  function Seen(c: Client, i: Identity): Client { c.(tracked := c.tracked + {i}) }

  datatype Notice = TurnStarted(id: Identity) | TurnCompleted(id: Identity) | TurnMentioned(id: Identity)

  /** The state after a notification; a refused one leaves it alone and stops the reader. */
  function Notified(c: Client, n: Notice): Client {
    match n
    case TurnStarted(i) => if CanStart(c, i) then Started(c, i) else c
    case TurnCompleted(i) => if CanTrack(c, i, false) then Completed(c, i) else c
    case TurnMentioned(i) => if CanTrack(c, i, false) then Seen(c, i) else c
  }

  lemma TrackedSize(s: set<Identity>, i: Identity)
    requires i in s || |s| < MAX_TRACKED_TURN_IDENTITIES
    requires |s| <= MAX_TRACKED_TURN_IDENTITIES
    ensures |s + {i}| <= MAX_TRACKED_TURN_IDENTITIES
  {
    if i in s { assert s + {i} == s; }
  }

  /** Whatever the server sends, a thread's binding never changes and a terminal turn is never active again. */
  lemma NotifiedKeeps(c: Client, n: Notice)
    requires ClientOk(c)
    ensures ClientOk(Notified(c, n)) && ClientLater(c, Notified(c, n))
  {
    if CanTrack(c, n.id, false) { TrackedSize(c.tracked, n.id); }
  }

  lemma {:induction false} LifetimeKeeps(c: Client, stream: seq<Notice>)
    requires ClientOk(c)
    ensures ClientOk(After(c, stream)) && ClientLater(c, After(c, stream))
    decreases |stream|
  {
    if stream != [] {
      NotifiedKeeps(c, stream[0]);
      LifetimeKeeps(Notified(c, stream[0]), stream[1..]);
    }
  }

  function After(c: Client, stream: seq<Notice>): Client
    decreases |stream|
  {
    if stream == [] then c else After(Notified(c, stream[0]), stream[1..])
  }

  lemma {:induction false} AfterConcat(c: Client, a: seq<Notice>, b: seq<Notice>)
    ensures After(c, a + b) == After(After(c, a), b)
    decreases |a|
  {
    if a == [] {
      assert a + b == b;
    } else {
      assert (a + b)[1..] == a[1..] + b;
      AfterConcat(Notified(c, a[0]), a[1..], b);
    }
  }

  /** Over one client's life a thread is only ever seen active on one turn, and never on one already seen terminal. */
  lemma OneTurnPerThread(a: seq<Notice>, b: seq<Notice>, t: Name)
    requires t in After(NoTurns, a).active && t in After(NoTurns, a + b).active
    ensures After(NoTurns, a).active[t] == After(NoTurns, a + b).active[t]
    ensures forall u :: Identity(t, u) in After(NoTurns, a).terminal ==> After(NoTurns, a + b).active[t] != u
  {
    LifetimeKeeps(NoTurns, a);
    AfterConcat(NoTurns, a, b);
    LifetimeKeeps(After(NoTurns, a), b);
  }

  class AppServerClient {
    var active: map<Name, Name>
    var bindings: map<Name, Name>
    var terminal: set<Identity>
    var tracked: set<Identity>

    ghost function State(): Client reads this { Client(active, bindings, terminal, tracked) }

    ghost predicate Valid() reads this { ClientOk(State()) }

    constructor ()
      ensures State() == NoTurns && Valid()
    {
      active, bindings, terminal, tracked := map[], map[], {}, {};
    }

    /** `_track_turn_identity_unlocked`. */
    method Track(i: Identity, bind: bool) returns (ok: bool)
      requires Valid()
      modifies this`bindings, this`tracked
      ensures ok == CanTrack(old(State()), i, bind)
      ensures State() ==
        if !ok then old(State())
        else if bind then old(State()).(bindings := old(bindings)[i.thread := i.turn], tracked := old(tracked) + {i})
                         else Seen(old(State()), i)
    {
      if bind && i.thread in bindings && bindings[i.thread] != i.turn { return false; }
      if bind && i in terminal { return false; }
      if i !in tracked && |tracked| >= MAX_TRACKED_TURN_IDENTITIES { return false; }
      if bind && i.thread !in bindings { bindings := bindings[i.thread := i.turn]; }
      assert bind ==> bindings == old(bindings)[i.thread := i.turn];
      tracked := tracked + {i};
      return true;
    }

    /** `turn/started`; `adopt_active_turn` does the same for a recovered turn. */
    method Start(i: Identity) returns (ok: bool)
      requires Valid()
      modifies this
      ensures ok == CanStart(old(State()), i)
      ensures State() == Notified(old(State()), TurnStarted(i)) && Valid() && ClientLater(old(State()), State())
    {
      NotifiedKeeps(State(), TurnStarted(i));
      if i.thread in active && active[i.thread] != i.turn { return false; }
      ok := Track(i, true);
      if ok { active := active[i.thread := i.turn]; }
    }

    /** `turn/completed`. */
    method Complete(i: Identity) returns (ok: bool)
      requires Valid()
      modifies this
      ensures ok == CanTrack(old(State()), i, false)
      ensures State() == Notified(old(State()), TurnCompleted(i)) && Valid() && ClientLater(old(State()), State())
    {
      NotifiedKeeps(State(), TurnCompleted(i));
      ok := Track(i, false);
      if ok {
        terminal := terminal + {i};
        if i.thread in active && active[i.thread] == i.turn { active := active - {i.thread}; }
      }
    }

    /** Token usage, rerouting and item notifications only track the identity. */
    method Mention(i: Identity) returns (ok: bool)
      requires Valid()
      modifies this
      ensures ok == CanTrack(old(State()), i, false)
      ensures State() == Notified(old(State()), TurnMentioned(i)) && Valid() && ClientLater(old(State()), State())
    {
      NotifiedKeeps(State(), TurnMentioned(i));
      ok := Track(i, false);
    }
  }
}
