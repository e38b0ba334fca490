/** The reference-counted tables as values: chunk, blob, entity, commits and object rows, the rows
    that only hold a reference (vfs, head, temp_file_chunks, sync_job, sync_job_queue), what it means
    for the counts to be exact, and what a garbage-collecting cascade may and must remove
    (janus-vfs/migrations/202605201500_initial.sql). */
module RefTables {
  import opened Bags

  /** An entity's type is part of what its key is hashed from. */
  datatype Table = Chunk | Blob | Entity(isDir: bool) | Commit | Object

  /** A row of one of the counted tables, by its primary key. */
  datatype Node = Node(table: Table, id: nat)

  datatype Mode = Local | Synced(remote: nat) | Untracked

  /** `refs` are the targets of the row's `chunk_map` or `entity_references` rows, or its entity. */
  datatype Row = Row(count: nat, mode: Mode, refs: seq<Node>)

  /** A row that refers to exactly one counted row and is not counted itself. */
  datatype Holder =
    | InodeRow(inode: nat)
    | HeadRow(name: string)
    | TempChunkRow(handle: nat, chunk: nat)
    | JobRow
    | QueueRow(item: Node)

  type Rows = map<Node, Row>
  type Holders = map<Holder, Node>
  type Ranks = map<Node, nat>

  function Out(r: Row): seq<Node> {
    if r.mode.Synced? then r.refs + [Node(Object, r.mode.remote)] else r.refs
  }

  ghost function Edges(rows: Rows): map<Node, seq<Node>> {
    map n | n in rows :: Out(rows[n])
  }

  ghost function Held(holders: Holders): map<Holder, seq<Node>> {
    map h | h in holders :: [holders[h]]
  }

  /** Every reference there is, and `extra` ones that a running statement still has to take back. */
  ghost function Refs(rows: Rows, holders: Holders, extra: multiset<Node>): multiset<Node> {
    Bag(Edges(rows)) + Bag(Held(holders)) + extra
  }

  /** Rows refer to older rows only, and to an object row through their mode alone. */
  ghost predicate Grounded(rows: Rows, rank: Ranks) {
    && (forall n :: n in rows ==> n in rank && (n.table.Object? <==> rows[n].mode.Untracked?))
    && (forall n, t :: n in rows && t in rows[n].refs ==> !t.table.Object? && t in rank && rank[t] < rank[n])
  }

  ghost predicate CountedBy(rows: Rows, all: multiset<Node>) {
    && (forall n :: n in all ==> n in rows)
    && (forall n :: n in rows ==> rows[n].count == all[n])
  }

  ghost predicate Counted(rows: Rows, holders: Holders, extra: multiset<Node>) {
    CountedBy(rows, Refs(rows, holders, extra))
  }

  // ---------- how single changes move the counts ----------

  function WithCount(rows: Rows, n: Node, c: nat): Rows
    requires n in rows
  {
    rows[n := rows[n].(count := c)]
  }

  lemma RecountKeepsRefs(rows: Rows, holders: Holders, extra: multiset<Node>, n: Node, c: nat)
    requires n in rows
    ensures Refs(WithCount(rows, n, c), holders, extra) == Refs(rows, holders, extra)
  {
    assert Edges(WithCount(rows, n, c)) == Edges(rows);
  }

  lemma RefsExtra(rows: Rows, holders: Holders, extra: multiset<Node>, n: Node)
    ensures Refs(rows, holders, extra + multiset{n}) == Refs(rows, holders, extra) + multiset{n}
  {
    hide Bag, Edges, Held;
  }

  lemma IncrementCounts(rows: Rows, holders: Holders, extra: multiset<Node>, n: Node)
    requires Counted(rows, holders, extra) && n in rows
    ensures Counted(WithCount(rows, n, rows[n].count + 1), holders, extra + multiset{n})
  {
    hide Refs;
    RecountKeepsRefs(rows, holders, extra + multiset{n}, n, rows[n].count + 1);
    RefsExtra(rows, holders, extra, n);
  }

  lemma DecrementCounts(rows: Rows, holders: Holders, extra: multiset<Node>, n: Node)
    requires Counted(rows, holders, extra + multiset{n})
    ensures n in rows && rows[n].count > 0
    ensures Counted(WithCount(rows, n, rows[n].count - 1), holders, extra)
  {
    hide Refs;
    RefsExtra(rows, holders, extra, n);
    assert n in Refs(rows, holders, extra + multiset{n});
    RecountKeepsRefs(rows, holders, extra, n, rows[n].count - 1);
  }

  lemma DeleteMovesRefs(rows: Rows, holders: Holders, extra: multiset<Node>, n: Node)
    requires n in rows
    ensures Refs(rows - {n}, holders, extra + multiset(Out(rows[n]))) == Refs(rows, holders, extra)
  {
    BagRemove(Edges(rows), n);
    assert Edges(rows - {n}) == Edges(rows) - {n};
    assert Edges(rows)[n] == Out(rows[n]);
    hide Bag, Edges, Held;
  }

  /** Deleting an unreferenced row turns its references into ones still to be taken back. */
  lemma DeleteCounts(rows: Rows, holders: Holders, extra: multiset<Node>, n: Node)
    requires Counted(rows, holders, extra) && n in rows && rows[n].count == 0
    ensures Counted(rows - {n}, holders, extra + multiset(Out(rows[n])))
  {
    hide Refs, Out;
    DeleteMovesRefs(rows, holders, extra, n);
    assert n !in Refs(rows, holders, extra);
  }

  /** A new row without references. */
  lemma InsertCounts(rows: Rows, holders: Holders, extra: multiset<Node>, n: Node, mode: Mode)
    requires Counted(rows, holders, extra) && n !in rows && !mode.Synced?
    ensures Counted(rows[n := Row(0, mode, [])], holders, extra)
  {
    InsertMovesRefs(rows, holders, extra, n, mode);
    hide Refs;
    assert n !in Refs(rows, holders, extra);
  }

  lemma InsertMovesRefs(rows: Rows, holders: Holders, extra: multiset<Node>, n: Node, mode: Mode)
    requires n !in rows && !mode.Synced?
    ensures Refs(rows[n := Row(0, mode, [])], holders, extra) == Refs(rows, holders, extra)
  {
    hide Bag, Held;
    assert Edges(rows[n := Row(0, mode, [])]) == Edges(rows)[n := []];
    BagAdd(Edges(rows), n, []);
    hide Edges;
  }

  lemma EdgesWith(rows: Rows, n: Node, r: Row)
    requires n in rows
    ensures Edges(rows[n := r]) == Edges(rows)[n := Out(r)] && n in Edges(rows) && Edges(rows)[n] == Out(rows[n])
  {
  }

  lemma RelinkBag(rows: Rows, n: Node, r: Row, t: Node)
    requires n in rows && multiset(Out(r)) == multiset(Out(rows[n])) + multiset{t}
    ensures Bag(Edges(rows[n := r])) == Bag(Edges(rows)) + multiset{t}
  {
    hide Bag, Edges, Out;
    EdgesWith(rows, n, r);
    BagReplace(Edges(rows), n, Out(r));
    var before, after, x := Bag(Edges(rows)), Bag(Edges(rows[n := r])), multiset(Out(rows[n]));
    SwapAddends(before, x, multiset{t});
    Cancel(after, before + multiset{t}, x);
  }

  lemma RelinkMovesRefs(rows: Rows, holders: Holders, extra: multiset<Node>, n: Node, r: Row, t: Node)
    requires n in rows && multiset(Out(r)) == multiset(Out(rows[n])) + multiset{t}
    ensures Refs(rows[n := r], holders, extra) == Refs(rows, holders, extra + multiset{t})
  {
    hide Bag, Edges, Held, Out;
    RelinkBag(rows, n, r, t);
  }

  /** A row that starts to refer to `t`. */
  lemma RelinkCounts(rows: Rows, holders: Holders, extra: multiset<Node>, n: Node, r: Row, t: Node)
    requires Counted(rows, holders, extra + multiset{t}) && n in rows && t in rows
    requires r.count == rows[n].count && multiset(Out(r)) == multiset(Out(rows[n])) + multiset{t}
    ensures Counted(rows[n := r], holders, extra)
  {
    hide Refs, Out;
    RelinkMovesRefs(rows, holders, extra, n, r, t);
  }

  lemma HeldWith(holders: Holders, h: Holder, n: Node)
    requires h !in holders
    ensures Held(holders[h := n]) == Held(holders)[h := [n]]
  {
  }

  lemma HoldMovesRefs(rows: Rows, holders: Holders, extra: multiset<Node>, h: Holder, n: Node)
    requires h !in holders
    ensures Refs(rows, holders[h := n], extra) == Refs(rows, holders, extra + multiset{n})
  {
    hide Bag, Edges;
    HeldWith(holders, h, n);
    BagAdd(Held(holders), h, [n]);
    hide Held;
    var x, before := multiset{n}, Bag(Held(holders));
    assert Bag(Held(holders[h := n])) == before + x;
  }

  lemma HoldCounts(rows: Rows, holders: Holders, extra: multiset<Node>, h: Holder, n: Node)
    requires Counted(rows, holders, extra + multiset{n}) && h !in holders
    ensures Counted(rows, holders[h := n], extra)
  {
    hide Refs;
    HoldMovesRefs(rows, holders, extra, h, n);
  }

  lemma HeldWithout(holders: Holders, h: Holder)
    requires h in holders
    ensures Held(holders - {h}) == Held(holders) - {h} && Held(holders)[h] == [holders[h]]
  {
  }

  lemma ReleaseMovesRefs(rows: Rows, holders: Holders, extra: multiset<Node>, h: Holder)
    requires h in holders
    ensures Refs(rows, holders - {h}, extra + multiset{holders[h]}) == Refs(rows, holders, extra)
  {
    hide Bag, Edges;
    HeldWithout(holders, h);
    BagRemove(Held(holders), h);
    hide Held;
    var x, rest := multiset{holders[h]}, Bag(Held(holders - {h}));
    assert Bag(Held(holders)) == x + rest;
  }

  lemma ReleaseCounts(rows: Rows, holders: Holders, extra: multiset<Node>, h: Holder)
    requires Counted(rows, holders, extra) && h in holders
    ensures Counted(rows, holders - {h}, extra + multiset{holders[h]})
  {
    hide Refs;
    ReleaseMovesRefs(rows, holders, extra, h);
  }

  /** A count is the number of rows referring to it: foreign keys hold and nothing referred to is missing. */
  lemma CountedIsClosed(rows: Rows, holders: Holders, extra: multiset<Node>)
    requires Counted(rows, holders, extra)
    ensures forall n, t :: n in rows && t in Out(rows[n]) ==> t in rows
    ensures forall h :: h in holders ==> holders[h] in rows
    ensures forall n :: n in extra ==> n in rows
  {
    forall n, t | n in rows && t in Out(rows[n]) ensures t in rows {
      BagMember(Edges(rows), t);
      assert t in Edges(rows)[n];
      assert t in Refs(rows, holders, extra);
    }
    forall h | h in holders ensures holders[h] in rows {
      BagMember(Held(holders), holders[h]);
      assert holders[h] in Held(holders)[h];
      assert holders[h] in Refs(rows, holders, extra);
    }
    forall n | n in extra ensures n in rows {
      assert n in Refs(rows, holders, extra);
    }
  }

  // ---------- what every statement keeps about the order of rows ----------

  ghost predicate Ordered(rows: Rows, located: map<nat, nat>, rank: Ranks, bound: nat) {
    && Grounded(rows, rank) && (forall n :: n in rank ==> rank[n] < bound)
    && (forall l :: l in located ==> Node(Object, located[l]) in rows)
  }

  /** Rows may change their counts, and tracked rows may go. */
  ghost predicate SameRows(before: Rows, after: Rows) {
    && (forall n :: n in after ==> n in before && after[n].mode == before[n].mode && after[n].refs == before[n].refs)
    && (forall n :: n in before && before[n].mode.Untracked? ==> n in after)
  }

  lemma SameRowsOrdered(before: Rows, after: Rows, located: map<nat, nat>, rank: Ranks, bound: nat)
    requires Ordered(before, located, rank, bound) && SameRows(before, after)
    ensures Ordered(after, located, rank, bound)
  {
  }

  // ---------- the cascade ----------

  /** What a collecting statement may do to the rows: delete local rows that were referred to, and
      change counts; a row nobody has referred to yet stays, and no row is left behind at zero. */
  ghost predicate Swept(before: Rows, after: Rows) {
    && (forall n :: n in after ==>
          n in before && after[n].mode == before[n].mode && after[n].refs == before[n].refs)
    && (forall n :: n in before && n !in after ==> before[n].mode.Local? && before[n].count > 0)
    && (forall n :: n in before && before[n].count == 0 ==> n in after && after[n].count == 0)
    && (forall n :: n in after && after[n].mode.Local? && after[n].count == 0 ==> before[n].count == 0)
  }

  lemma SweptReflexive(a: Rows)
    ensures Swept(a, a)
  {
  }

  lemma SweptTransitive(a: Rows, b: Rows, c: Rows)
    requires Swept(a, b) && Swept(b, c)
    ensures Swept(a, c)
  {
  }

  ghost predicate IsRoot(rows: Rows, holders: Holders, n: Node) {
    (exists h :: h in holders && holders[h] == n)
    || (n in rows && (!rows[n].mode.Local? || rows[n].count == 0))
  }

  predicate Refers(rows: Rows, n: Node, t: Node) {
    n in rows && t in Out(rows[n])
  }

  /** `p` leads from a root to its last element along references. */
  ghost predicate Trail(rows: Rows, holders: Holders, p: seq<Node>) {
    && p != [] && IsRoot(rows, holders, p[0])
    && forall i, j :: 0 <= i && j == i + 1 < |p| ==> Refers(rows, p[i], p[j])
  }

  ghost predicate Reachable(rows: Rows, holders: Holders, n: Node) {
    exists p :: Trail(rows, holders, p) && p[|p| - 1] == n
  }

  lemma TrailExtends(rows: Rows, holders: Holders, p: seq<Node>, n: Node)
    requires Trail(rows, holders, p) && Refers(rows, p[|p| - 1], n)
    ensures Trail(rows, holders, p + [n])
  {
    hide IsRoot, Refers;
  }

  lemma HasReferrer(rows: Rows, holders: Holders, n: Node)
    requires Counted(rows, holders, multiset{}) && n in rows && !IsRoot(rows, holders, n)
    requires n.table.Object? ==> rows[n].mode.Untracked?
    ensures exists m :: m in rows && n in rows[m].refs && Refers(rows, m, n)
  {
    BagMember(Edges(rows), n);
    BagMember(Held(holders), n);
    assert rows[n].count == Refs(rows, holders, multiset{})[n];
    hide Bag;
    assert n !in Bag(Held(holders)) by {
      forall h | h in Held(holders) ensures n !in Held(holders)[h] { }
    }
    var m :| m in Edges(rows) && n in Edges(rows)[m];
    assert Refers(rows, m, n);
  }

  /** With exact counts every row is reachable from what is held, synced or not yet referred to. */
  lemma {:induction false} RowsAreReachable(rows: Rows, holders: Holders, rank: Ranks, bound: nat, n: Node)
    requires Counted(rows, holders, multiset{}) && Grounded(rows, rank)
    requires forall m :: m in rank ==> rank[m] < bound
    requires n in rows
    ensures Reachable(rows, holders, n)
    decreases bound - rank[n]
  {
    hide Counted, Out;
    if IsRoot(rows, holders, n) {
      assert Trail(rows, holders, [n]);
    } else {
      HasReferrer(rows, holders, n);
      var m :| m in rows && n in rows[m].refs && Refers(rows, m, n);
      RowsAreReachable(rows, holders, rank, bound, m);
      var p :| Trail(rows, holders, p) && p[|p| - 1] == m;
      TrailExtends(rows, holders, p, n);
      assert (p + [n])[|p|] == n;
    }
  }

  lemma {:induction false} TrailSurvives(before: Rows, after: Rows, holders: Holders, p: seq<Node>)
    requires Swept(before, after) && Counted(after, holders, multiset{})
    requires Trail(before, holders, p)
    requires p[|p| - 1] in before
    ensures p[|p| - 1] in after
    decreases |p|
  {
    CountedIsClosed(after, holders, multiset{});
    hide Counted;
    if |p| > 1 {
      var q := p[..|p| - 1];
      assert Refers(before, p[|p| - 2], p[|p| - 1]);
      assert Trail(before, holders, q);
      TrailSurvives(before, after, holders, q);
    }
  }

  lemma RootsWereRoots(before: Rows, after: Rows, holders: Holders, n: Node)
    requires Swept(before, after) && IsRoot(after, holders, n)
    ensures IsRoot(before, holders, n)
  {
  }

  /** Collection is exact: after the statement a row of the table is still there exactly when it is
      reachable from a held, synced or never-referred-to row along references. */
  lemma CollectionExact(before: Rows, after: Rows, holders: Holders, rank: Ranks, bound: nat, n: Node)
    requires Swept(before, after) && Counted(after, holders, multiset{}) && Grounded(after, rank)
    requires forall m :: m in rank ==> rank[m] < bound
    requires n in before
    ensures n in after <==> Reachable(before, holders, n)
  {
    hide IsRoot, Counted;
    if n in after {
      RowsAreReachable(after, holders, rank, bound, n);
      var p :| Trail(after, holders, p) && p[|p| - 1] == n;
      RootsWereRoots(before, after, holders, p[0]);
      assert Trail(before, holders, p) by {
        forall i, j | 0 <= i && j == i + 1 < |p| ensures Refers(before, p[i], p[j]) {
          assert Refers(after, p[i], p[j]);
        }
      }
    }
    if Reachable(before, holders, n) {
      var p :| Trail(before, holders, p) && p[|p| - 1] == n;
      TrailSurvives(before, after, holders, p);
    }
  }

  /** What a collecting statement leaves: exactly the rows still reachable without the deleted holders. */
  ghost predicate CollectedExactly(before: Rows, after: Rows, holders: Holders) {
    forall n :: n in before ==> (n in after <==> Reachable(before, holders, n))
  }

  lemma SweptCollectsExactly(before: Rows, after: Rows, holders: Holders, located: map<nat, nat>, rank: Ranks, bound: nat)
    requires Swept(before, after) && Counted(after, holders, multiset{}) && Ordered(after, located, rank, bound)
    ensures CollectedExactly(before, after, holders)
  {
    hide Swept, Counted, Reachable, Grounded;
    forall n | n in before ensures n in after <==> Reachable(before, holders, n) {
      CollectionExact(before, after, holders, rank, bound, n);
    }
  }

  // ---------- new rows ----------

  lemma FreshObject(rows: Rows)
    ensures exists f: nat :: Node(Object, f) !in rows
  {
    var f := FreshId(rows.Keys);
    assert Node(Object, f) !in rows;
  }

  lemma {:induction false} FreshId(nodes: set<Node>) returns (f: nat)
    ensures forall n :: n in nodes ==> n.id < f
    decreases |nodes|
  {
    f := 0;
    if nodes != {} {
      var m :| m in nodes;
      f := FreshId(nodes - {m});
      f := if m.id < f then f else m.id + 1;
    }
  }

  // ---------- remote locations ----------

  predicate SyncedRow(rows: Rows, n: Node) {
    n in rows && rows[n].mode.Synced?
  }

  /** No two items share a remote location. */
  ghost predicate OwnHomes(homes: Node -> nat) {
    forall m, n :: homes(m) == homes(n) ==> m == n
  }

  /** There is an object row for an item's location exactly while the item's row is synced. */
  ghost predicate AtHome(homes: Node -> nat, rows: Rows, located: map<nat, nat>) {
    forall n: Node :: !n.table.Object? ==> (homes(n) in located <==> SyncedRow(rows, n))
  }

  /** The same items are synced, with the same objects. */
  ghost predicate SameSynced(before: Rows, after: Rows) {
    forall n: Node :: !n.table.Object? ==>
      && (SyncedRow(after, n) <==> SyncedRow(before, n))
      && (SyncedRow(before, n) ==> after[n].mode == before[n].mode)
  }

  lemma NobodyAtHome(homes: Node -> nat)
    ensures AtHome(homes, map[], map[])
  {
  }

  lemma SyncedTransitive(a: Rows, b: Rows, c: Rows)
    requires SameSynced(a, b) && SameSynced(b, c)
    ensures SameSynced(a, c)
  {
  }

  lemma SweptSameSynced(before: Rows, after: Rows)
    requires Swept(before, after)
    ensures SameSynced(before, after)
  {
  }

  lemma AtHomeSame(homes: Node -> nat, before: Rows, after: Rows, located: map<nat, nat>)
    requires AtHome(homes, before, located) && SameSynced(before, after)
    ensures AtHome(homes, after, located)
  {
    hide SyncedRow;
  }

  /** One more item is synced, at its own location. */
  lemma OneMoreAtHome(homes: Node -> nat, n: Node, rows: Rows, located: map<nat, nat>, rows': Rows, located': map<nat, nat>)
    requires OwnHomes(homes) && AtHome(homes, rows, located)
    requires located'.Keys == located.Keys + {homes(n)} && SyncedRow(rows', n)
    requires forall m :: m != n && !m.table.Object? ==> (SyncedRow(rows', m) <==> SyncedRow(rows, m))
    ensures AtHome(homes, rows', located')
  {
    hide SyncedRow;
    forall m | m != n && !m.table.Object? ensures homes(m) in located' <==> SyncedRow(rows', m) {
      assert homes(m) != homes(n);
    }
  }

  // ---------- the change log of chunks ----------

  predicate SameChunk(before: Rows, after: Rows, n: Node) {
    (n in before <==> n in after) && (n in before && n in after ==> before[n].mode == after[n].mode)
  }

  /** Every chunk that came, went or changed its mode is in the log. */
  ghost predicate ChunksLogged(before: Rows, after: Rows, log: set<Node>) {
    forall n: Node :: n.table.Chunk? && n !in log ==> SameChunk(before, after, n)
  }

  lemma ChunksLoggedStart(rows: Rows, log: set<Node>)
    ensures ChunksLogged(rows, rows, log)
  {
  }

  lemma ChunksLoggedStep(a: Rows, b: Rows, log: set<Node>, c: Rows, log': set<Node>)
    requires ChunksLogged(a, b, log) && ChunksLogged(b, c, log') && log <= log'
    ensures ChunksLogged(a, c, log')
  {
  }

  lemma RecountLogged(rows: Rows, n: Node, c: nat, log: set<Node>)
    requires n in rows
    ensures ChunksLogged(rows, WithCount(rows, n, c), log)
  {
  }

  /** What the log gets for a change of the row `n`. */
  function LogOf(n: Node): set<Node> {
    if n.table.Chunk? then {n} else {}
  }

  lemma DeleteLogged(rows: Rows, n: Node, log: set<Node>)
    requires LogOf(n) <= log
    ensures ChunksLogged(rows, rows - {n}, log)
  {
  }

  /** The chunk cache remembers which chunks there are; a chunk's content is fixed by its id. Dropping the
      logged chunks after a commit keeps its answers right. */
  lemma ChunkCacheStaysRight(before: Rows, after: Rows, log: set<Node>, cache: map<Node, bool>)
    requires ChunksLogged(before, after, log)
    requires forall n :: n in cache ==> n.table.Chunk? && (cache[n] <==> n in before)
    ensures forall n :: n in cache - log ==> (cache[n] <==> n in after)
  {
    forall n | n in cache - log ensures cache[n] <==> n in after {
      assert SameChunk(before, after, n);
    }
  }
}
