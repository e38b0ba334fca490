/** The per-inode write locks: a table of weak references to mutexes, and any number of clients that
    acquire, wait, time out and drop in any interleaving (janus-vfs/src/vfs/file.rs 170-234). Each event
    is one critical section of the outer lock or one atomic change of a reference. */
module Locks {
  import opened Wrappers

  type Inode = nat
  type Mutex = nat
  type ClientId = nat

  /** A waiting or holding client owns a strong reference to its mutex. A client that dropped its guard
      has yet to clean the table. */
  datatype Client = Waiting(inode: Inode, mutex: Mutex) | Holding(inode: Inode, mutex: Mutex) | Cleaning

  /** Clients not listed are idle; mutexes from `unused` on have not been allocated. */
  datatype State = State(table: map<Inode, Mutex>, clients: map<ClientId, Client>, unused: Mutex)

  datatype Event =
    | Acquire(c: ClientId, i: Inode)
    | Grant(c: ClientId)
    | TimeOut(c: ClientId)
    | DropGuard(c: ClientId)
    | CleanUp(c: ClientId)

  predicate Refers(s: State, c: ClientId, m: Mutex) {
    c in s.clients && !s.clients[c].Cleaning? && s.clients[c].mutex == m
  }

  /** `strong_count() >= 1`, which is when `upgrade()` succeeds. */
  predicate Live(s: State, m: Mutex) {
    exists c :: c in s.clients && Refers(s, c, m)
  }

  predicate Held(s: State, m: Mutex) {
    exists c :: c in s.clients && s.clients[c].Holding? && s.clients[c].mutex == m
  }

  function Initial(): State {
    State(map[], map[], 0)
  }

  /** The state after an event, if it can happen. */
  function Next(s: State, e: Event): Option<State> {
    match e
    case Acquire(c, i) =>
      if c in s.clients then None
      else if i in s.table && Live(s, s.table[i]) then
        Some(s.(clients := s.clients[c := Waiting(i, s.table[i])]))
      else
        Some(State(s.table[i := s.unused], s.clients[c := Waiting(i, s.unused)], s.unused + 1))
    case Grant(c) =>
      if c in s.clients && s.clients[c].Waiting? && !Held(s, s.clients[c].mutex) then
        Some(s.(clients := s.clients[c := Holding(s.clients[c].inode, s.clients[c].mutex)]))
      else None
    case TimeOut(c) =>
      if c in s.clients && s.clients[c].Waiting? then Some(s.(clients := s.clients - {c})) else None
    case DropGuard(c) =>
      if c in s.clients && s.clients[c].Holding? then Some(s.(clients := s.clients[c := Cleaning])) else None
    case CleanUp(c) =>
      if c in s.clients && s.clients[c].Cleaning? then
        Some(s.(table := map i | i in s.table && Live(s, s.table[i]) :: s.table[i], clients := s.clients - {c}))
      else None
  }

  /** The state after a run, if all its events can happen in turn. */
  function Run(es: seq<Event>): Option<State> {
    if es == [] then Some(Initial())
    else
      var before := Run(es[..|es| - 1]);
      if before.None? then None else Next(before.value, es[|es| - 1])
  }

  // ---------- the invariant ----------

  /** All live references for an inode are to the mutex in the table. */
  predicate OneMutex(s: State) {
    forall c :: c in s.clients && !s.clients[c].Cleaning? ==>
      s.clients[c].inode in s.table && s.table[s.clients[c].inode] == s.clients[c].mutex
  }

  predicate BothHold(a: Client, b: Client) {
    a.Holding? && b.Holding? && a.mutex == b.mutex
  }

  predicate OneHolder(s: State) {
    forall a, b :: a in s.clients && b in s.clients && BothHold(s.clients[a], s.clients[b]) ==> a == b
  }

  predicate Allocated(s: State) {
    forall i :: i in s.table ==> s.table[i] < s.unused
  }

  predicate Invariant(s: State) {
    OneMutex(s) && OneHolder(s) && Allocated(s)
  }

  lemma NextKeeps(s: State, e: Event)
    requires Invariant(s) && Next(s, e).Some?
    ensures Invariant(Next(s, e).value)
  {
    var t := Next(s, e).value;
    match e {
      case Acquire(c, i) =>
        forall d | d in s.clients && !s.clients[d].Cleaning? && s.clients[d].inode == i ensures Live(s, s.table[i]) {
          assert Refers(s, d, s.table[i]);
        }
      case Grant(c) =>
        forall d | d in s.clients && s.clients[d].Holding? ensures s.clients[d].mutex != s.clients[c].mutex {
        }
      case TimeOut(c) =>
      case DropGuard(c) =>
      case CleanUp(c) =>
        forall d | d in t.clients && !t.clients[d].Cleaning? ensures t.clients[d].inode in t.table {
          assert Refers(s, d, s.clients[d].mutex);
        }
    }
  }

  lemma {:induction false} Reachable(es: seq<Event>)
    requires Run(es).Some?
    ensures Invariant(Run(es).value)
    decreases |es|
  {
    if es != [] {
      Reachable(es[..|es| - 1]);
      NextKeeps(Run(es[..|es| - 1]).value, es[|es| - 1]);
    }
  }

  /** At most one client holds the lock of an inode, after any events of any number of clients. */
  lemma Exclusive(es: seq<Event>, a: ClientId, b: ClientId)
    requires Run(es).Some?
    requires var s := Run(es).value;
             a in s.clients && b in s.clients && s.clients[a].Holding? && s.clients[b].Holding?
             && s.clients[a].inode == s.clients[b].inode
    ensures a == b
  {
    Reachable(es);
  }

  /** No event, neither a clean-up nor a new acquisition, drops or replaces an entry while a client still
      waits for or holds its mutex. */
  lemma LiveEntriesStay(es: seq<Event>, e: Event, c: ClientId)
    requires Run(es).Some? && Next(Run(es).value, e).Some?
    requires var s := Run(es).value; c in s.clients && !s.clients[c].Cleaning?
    ensures var (s, t) := (Run(es).value, Next(Run(es).value, e).value);
            var i := s.clients[c].inode;
            i in s.table && i in t.table && t.table[i] == s.table[i]
  {
    Reachable(es);
    var s := Run(es).value;
    assert Refers(s, c, s.clients[c].mutex);
  }

  /** Two clients of one inode always meet at the same mutex, so a waiter is blocked exactly while
      another client holds the inode's lock. */
  lemma WaitersAreBlockedExactly(es: seq<Event>, c: ClientId)
    requires Run(es).Some?
    requires c in Run(es).value.clients && Run(es).value.clients[c].Waiting?
    ensures var s := Run(es).value;
            Next(s, Grant(c)).None?
            <==> exists d :: d in s.clients && s.clients[d].Holding? && s.clients[d].inode == s.clients[c].inode
  {
    Reachable(es);
    MutexOfOneInode(es);
    var s := Run(es).value;
    if d :| d in s.clients && s.clients[d].Holding? && s.clients[d].mutex == s.clients[c].mutex {
      assert s.clients[d].inode == s.clients[c].inode;
    }
  }

  /** Entries of different inodes are different mutexes. */
  lemma {:induction false} MutexOfOneInode(es: seq<Event>)
    requires Run(es).Some?
    ensures var s := Run(es).value; forall i, j :: i in s.table && j in s.table && s.table[i] == s.table[j] ==> i == j
    decreases |es|
  {
    if es != [] {
      MutexOfOneInode(es[..|es| - 1]);
      Reachable(es[..|es| - 1]);
    }
  }

  /** After a clean-up only mutexes that are in use are left in the table. */
  lemma CleanUpForgets(es: seq<Event>, c: ClientId, i: Inode)
    requires Run(es).Some? && Next(Run(es).value, CleanUp(c)).Some?
    ensures var (s, t) := (Run(es).value, Next(Run(es).value, CleanUp(c)).value);
            i in t.table <==> exists d :: d in t.clients && !t.clients[d].Cleaning? && t.clients[d].inode == i
  {
    Reachable(es);
    MutexOfOneInode(es);
    var (s, t) := (Run(es).value, Next(Run(es).value, CleanUp(c)).value);
    if i in t.table {
      var d :| d in s.clients && Refers(s, d, s.table[i]);
      assert s.table[s.clients[d].inode] == s.table[i];
      assert d in t.clients && t.clients[d].inode == i;
    }
    if d :| d in t.clients && !t.clients[d].Cleaning? && t.clients[d].inode == i {
      assert Refers(s, d, s.clients[d].mutex);
    }
  }

  // ---------- the lock service without its table ----------

  /** What a client is doing; clients not listed are idle. */
  datatype Phase = Waits(inode: Inode) | Holds(inode: Inode) | Cleans

  type Phases = map<ClientId, Phase>

  /** A lock for each inode: anyone idle may ask, anyone waiting may give up, a lock is granted while nobody
      holds it, and whoever holds one may drop it and then clean up. */
  ghost predicate Allowed(p: Phases, e: Event) {
    match e
    case Acquire(c, i) => c !in p
    case Grant(c) => c in p && p[c].Waits? && forall d :: d in p ==> p[d] != Holds(p[c].inode)
    case TimeOut(c) => c in p && p[c].Waits?
    case DropGuard(c) => c in p && p[c].Holds?
    case CleanUp(c) => c in p && p[c].Cleans?
  }

  /** Only the client of the event changes its phase. */
  ghost function After(p: Phases, e: Event): Phases
    requires Allowed(p, e)
  {
    match e
    case Acquire(c, i) => p[c := Waits(i)]
    case Grant(c) => p[c := Holds(p[c].inode)]
    case TimeOut(c) => p - {c}
    case DropGuard(c) => p[c := Cleans]
    case CleanUp(c) => p - {c}
  }

  ghost function PhaseOf(client: Client): Phase {
    match client
    case Waiting(i, _) => Waits(i)
    case Holding(i, _) => Holds(i)
    case Cleaning => Cleans
  }

  ghost function PhasesOf(s: State): Phases {
    map c | c in s.clients :: PhaseOf(s.clients[c])
  }

  /** The table of weak references is a lock service: after any run exactly the events happen that the
      service allows, and with its effect. */
  lemma RefinesService(es: seq<Event>, e: Event)
    requires Run(es).Some?
    ensures var s := Run(es).value;
            && (Next(s, e).Some? <==> Allowed(PhasesOf(s), e))
            && (Next(s, e).Some? ==> PhasesOf(Next(s, e).value) == After(PhasesOf(s), e))
  {
    Reachable(es);
    var s := Run(es).value;
    if e.Grant? && e.c in s.clients && s.clients[e.c].Waiting? {
      WaitersAreBlockedExactly(es, e.c);
      GrantAllowed(s, e.c);
    }
  }

  lemma GrantAllowed(s: State, c: ClientId)
    requires c in s.clients && s.clients[c].Waiting?
    ensures Allowed(PhasesOf(s), Grant(c))
       <==> !exists d :: d in s.clients && s.clients[d].Holding? && s.clients[d].inode == s.clients[c].inode
  {
    var p := PhasesOf(s);
    if d :| d in s.clients && s.clients[d].Holding? && s.clients[d].inode == s.clients[c].inode {
      assert p[d] == Holds(p[c].inode);
    }
    if !Allowed(p, Grant(c)) {
      var d :| d in p && p[d] == Holds(p[c].inode);
      assert s.clients[d].Holding?;
    }
  }

  lemma RunStep(es: seq<Event>, e: Event)
    requires Run(es).Some?
    ensures Run(es + [e]) == Next(Run(es).value, e)
  {
    assert (es + [e])[..|es|] == es;
  }

  /** Dropping the guard releases the lock: nobody holds the inode, whoever waits for it can be granted at
      once, and the clean-up can happen. */
  lemma DropReleases(es: seq<Event>, c: ClientId)
    requires Run(es).Some? && Run(es + [DropGuard(c)]).Some?
    ensures c in Run(es).value.clients && Run(es).value.clients[c].Holding?
    ensures var i, t := Run(es).value.clients[c].inode, Run(es + [DropGuard(c)]).value;
            && (forall d :: d in t.clients && t.clients[d].Holding? ==> t.clients[d].inode != i)
            && (forall d :: d in t.clients && t.clients[d].Waiting? && t.clients[d].inode == i ==> Next(t, Grant(d)).Some?)
            && Next(t, CleanUp(c)).Some?
  {
    RunStep(es, DropGuard(c));
    var s, t := Run(es).value, Run(es + [DropGuard(c)]).value;
    var i := s.clients[c].inode;
    forall d | d in t.clients && t.clients[d].Holding? ensures t.clients[d].inode != i {
      if t.clients[d].inode == i { Exclusive(es, c, d); }
    }
    forall d | d in t.clients && t.clients[d].Waiting? && t.clients[d].inode == i ensures Next(t, Grant(d)).Some? {
      WaitersAreBlockedExactly(es + [DropGuard(c)], d);
    }
  }

  /** Once the last client of an inode has cleaned up, the table has no entry for it. */
  lemma LastOneForgets(es: seq<Event>, c: ClientId)
    requires Run(es).Some? && Run(es + [DropGuard(c), CleanUp(c)]).Some?
    ensures Run(es + [DropGuard(c)]).Some? && c in Run(es).value.clients && Run(es).value.clients[c].Holding?
    ensures var i, s, t := Run(es).value.clients[c].inode, Run(es).value, Run(es + [DropGuard(c), CleanUp(c)]).value;
            i in t.table <==> exists d :: d in s.clients && d != c && !s.clients[d].Cleaning? && s.clients[d].inode == i
  {
    assert es + [DropGuard(c), CleanUp(c)] == es + [DropGuard(c)] + [CleanUp(c)];
    var drop := es + [DropGuard(c)];
    assert (drop + [CleanUp(c)])[..|drop|] == drop;
    RunStep(es, DropGuard(c));
    RunStep(drop, CleanUp(c));
    var s, i := Run(es).value, Run(es).value.clients[c].inode;
    CleanUpForgets(drop, c, i);
    var t := Next(Run(drop).value, CleanUp(c)).value;
    if d :| d in s.clients && d != c && !s.clients[d].Cleaning? && s.clients[d].inode == i {
      assert t.clients[d] == s.clients[d];
    }
    if d :| d in t.clients && !t.clients[d].Cleaning? && t.clients[d].inode == i { assert s.clients[d] == t.clients[d]; }
  }

  /** Only acquiring enters an inode into the table, and only a clean-up removes entries. */
  lemma TableChanges(es: seq<Event>, e: Event)
    requires Run(es).Some? && Next(Run(es).value, e).Some?
    ensures var (s, t) := (Run(es).value, Next(Run(es).value, e).value);
            && (e.Acquire? ==> t.table.Keys == s.table.Keys + {e.i} && t.table == s.table[e.i := t.table[e.i]]
                               && t.clients[e.c].mutex == t.table[e.i])
            && (e.CleanUp? ==> t.table.Keys <= s.table.Keys && forall i :: i in t.table ==> t.table[i] == s.table[i])
            && (!e.Acquire? && !e.CleanUp? ==> t.table == s.table)
  {
  }
}
