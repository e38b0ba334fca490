/** Pulling remote objects: one transaction per object, in the order chunks, blobs, sorted entities,
    commits (janus-vfs/src/sync/pull.rs, and the register functions it reaches). */
module Pull {
  import opened Wrappers
  import opened RefTables
  import opened RefStore
  import SortEntities
  import Distinct

  /** What a remote object says it is: the row it stands for, and that row's references. */
  datatype Item = Item(location: nat, node: Node, refs: seq<Node>)

  datatype PullError = RegisterFailed | MaxDepthExceeded

  /** Chunks refer to nothing, blobs to chunks, files to blobs, directories to entities, commits to an entity. */
  predicate Typed(x: Item) {
    match x.node.table
    case Chunk => x.refs == []
    case Blob => forall t :: t in x.refs ==> t.table.Chunk?
    case Entity(isDir) => forall t :: t in x.refs ==> if isDir then t.table.Entity? else t.table.Blob?
    case Commit => forall t :: t in x.refs ==> t.table.Entity?
    case Object => false
  }

  predicate AllTyped(s: seq<Item>) {
    forall i :: 0 <= i < |s| ==> Typed(s[i])
  }

  /** No location and no row is listed twice. */
  predicate ListedOnce(s: seq<Item>) {
    forall i, j :: 0 <= i < j < |s| ==> s[i].location != s[j].location && s[i].node != s[j].node
  }

  /** An object row stands beside the synced row of its item, and the item has no other location. */
  ghost predicate Recorded(s: seq<Item>, rows: Rows, located: map<nat, nat>) {
    forall i :: 0 <= i < |s| ==> (s[i].location in located <==> SyncedRow(rows, s[i].node))
  }

  /** The items are listed at their own locations. */
  ghost predicate ListedAtHome(homes: Node -> nat, s: seq<Item>) {
    forall i :: 0 <= i < |s| ==> s[i].location == homes(s[i].node)
  }

  lemma AtHomeIsRecorded(homes: Node -> nat, s: seq<Item>, rows: Rows, located: map<nat, nat>)
    requires AtHome(homes, rows, located) && ListedAtHome(homes, s) && AllTyped(s)
    ensures Recorded(s, rows, located)
  {
    forall i | 0 <= i < |s| ensures s[i].location in located <==> SyncedRow(rows, s[i].node) {
      assert Typed(s[i]);
    }
  }

  /** A commit is one of a directory. */
  predicate OfDirectory(x: Item) {
    x.node.table.Commit? ==> forall t :: t in x.refs ==> t.table == Entity(true)
  }

  /** Each item's references are in the tables or stand before it, and commits name directories. */
  ghost predicate RefsFirst(s: seq<Item>, rows: Rows) {
    && (forall i, t :: 0 <= i < |s| && t in s[i].refs ==> t in rows || Before(s, i, t))
    && (forall i :: 0 <= i < |s| ==> OfDirectory(s[i]))
  }

  predicate Before(s: seq<Item>, i: int, t: Node) {
    exists j :: 0 <= j < i && j < |s| && s[j].node == t
  }

  /** The remote set is closed under references, given what is already there, and commits name directories. */
  ghost predicate ClosedSet(s: seq<Item>, rows: Rows) {
    && (forall i, t :: 0 <= i < |s| && t in s[i].refs ==> t in rows || Before(s, |s|, t))
    && (forall i :: 0 <= i < |s| ==> OfDirectory(s[i]))
  }

  /** When the register function of the item's table accepts it, a commit only of a directory: blobs and commits insist on updating an
      existing row, which only a local one allows. */
  ghost predicate CanRegister(x: Item, rows: Rows) {
    && (x.node.table.Commit? ==> forall t :: t in x.refs ==> t.table == Entity(true))
    && if x.node in rows then rows[x.node].mode.Local? || x.node.table.Chunk? || x.node.table.Entity?
       else forall t :: t in x.refs ==> t in rows
  }

  /** Rows only become more: none goes or refers to anything else, and a mode changes only from local to synced. */
  ghost predicate OnlyMore(before: Rows, after: Rows) {
    forall n :: n in before ==>
      && n in after && after[n].refs == before[n].refs
      && (after[n].mode == before[n].mode || (before[n].mode.Local? && after[n].mode.Synced?))
  }

  lemma MoreTransitive(a: Rows, b: Rows, c: Rows)
    requires OnlyMore(a, b) && OnlyMore(b, c)
    ensures OnlyMore(a, c)
  {
  }

  /** The register functions, with the row of the new remote object in place. */
  method Register(store: Store, x: Item, id: nat) returns (r: Result<(), PullError>)
    requires store.Valid() && Typed(x) && Node(Object, id) in store.rows
    requires x.node in store.rows && store.rows[x.node].mode.Synced? ==> store.rows[x.node].mode.remote != id
    modifies store
    ensures store.Valid() && store.located == old(store.located) && store.holders == old(store.holders)
    ensures r.Ok? <==> CanRegister(x, old(store.rows))
    ensures r.Err? ==> store.rows == old(store.rows)
    ensures r.Ok? ==> SyncedRow(store.rows, x.node) && OnlyMore(old(store.rows), store.rows)
    ensures r.Ok? ==> store.rows.Keys == old(store.rows).Keys + {x.node}
    ensures r.Ok? ==> store.rows[x.node].refs == if x.node in old(store.rows) then old(store.rows)[x.node].refs else x.refs
    ensures r.Ok? ==> store.rows[x.node].mode ==
                      if SyncedRow(old(store.rows), x.node) then old(store.rows)[x.node].mode else Synced(id)
    ensures r.Ok? ==> forall n :: n in old(store.rows) && n != x.node ==> store.rows[n].mode == old(store.rows)[n].mode
    ensures store.base == old(store.base)
  {
    hide Counted, Ordered;
    TypedRefs(x);
    RowMode(store.rows, store.located, store.rank, store.bound, x.node);
    if !OfDirectory(x) { return Err(RegisterFailed); }
    if x.node in store.rows {
      if store.rows[x.node].mode.Synced? && (x.node.table.Chunk? || x.node.table.Entity?) {
        return Ok(());
      }
      var marked := store.MarkSynced(x.node, id);
      return if marked.Ok? then Ok(()) else Err(RegisterFailed);
    }
    var inserted := store.InsertRow(x.node, Synced(id), x.refs);
    OutOf(x.refs, id);
    return if inserted.Ok? then Ok(()) else Err(RegisterFailed);
  }

  lemma TypedRefs(x: Item)
    requires Typed(x)
    ensures !x.node.table.Object? && forall t :: t in x.refs ==> !t.table.Object?
  {
  }

  lemma RowMode(rows: Rows, located: map<nat, nat>, rank: Ranks, bound: nat, n: Node)
    requires Ordered(rows, located, rank, bound) && !n.table.Object?
    ensures n in rows ==> rows[n].mode.Local? || rows[n].mode.Synced?
  {
  }

  lemma OutOf(refs: seq<Node>, id: nat)
    ensures forall t :: t in Out(Row(0, Synced(id), refs)) <==> t in refs || t == Node(Object, id)
  {
  }

  /** Nothing but the given items has come or become synced. */
  ghost predicate OnlyItems(items: set<Node>, before: Rows, after: Rows) {
    forall n: Node :: !n.table.Object? && n !in items ==>
      (n in after <==> n in before) && (SyncedRow(after, n) <==> SyncedRow(before, n))
  }

  /** What becomes of one item: a known location changes nothing, an item that is refused neither, and a new
      location brings the item's row, with its references if it is new and synced there if it was not. */
  ghost predicate Stepped(x: Item, rows: Rows, located: map<nat, nat>, rows': Rows, located': map<nat, nat>,
                          r: Result<nat, PullError>) {
    && (r.Err? || x.location in located ==> rows' == rows && located' == located)
    && (r.Ok? ==> located' == located[x.location := r.value])
    && (r.Err? ==> x.location !in located)
    && (r.Ok? && x.location !in located ==> SyncedRow(rows', x.node))
    && (r.Ok? && x.location !in located && !SyncedRow(rows, x.node) ==> rows'[x.node].mode == Synced(r.value))
    && (r.Ok? && x.location !in located && x.node !in rows ==> rows'[x.node].refs == x.refs)
    && OnlyItems({x.node}, rows, rows')
  }

  /** `sync_object`, one transaction: a known location is only marked as seen; a new one brings its object
      row and its item's row, or on an error neither. */
  method SyncObject(store: Store, x: Item) returns (r: Result<nat, PullError>)
    requires store.Valid() && Typed(x)
    modifies store
    ensures store.Valid() && store.holders == old(store.holders) && OnlyMore(old(store.rows), store.rows)
    ensures r.Ok? <==> x.location in old(store.located) || CanRegister(x, old(store.rows))
    ensures Stepped(x, old(store.rows), old(store.located), store.rows, store.located, r)
    ensures old(store.Committed()) ==> store.Committed()
    ensures r.Ok? && x.location !in old(store.located) ==>
      && Node(Object, r.value) !in old(store.rows)
      && store.rows.Keys == old(store.rows).Keys + {Node(Object, r.value), x.node}
  {
    hide Counted, Ordered, CanRegister, Typed, ChunksLogged, OnlyItems, OnlyMore, Stepped;
    NoChange(store.rows);
    NoStep(x, store.rows, store.located);
    FreshObject(store.rows);
    var unused :| Node(Object, unused) !in store.rows;
    var saved, savedLocations, savedLog := store.rows, store.located, store.log;
    ghost var rank, bound := store.rank, store.bound;
    NotReferred(store.rows, store.holders, unused, x.node);
    var id, isNew := store.CreateObject(x.location, unused);
    if !isNew { return Ok(id); }
    TypedRefs(x);
    CanRegisterSame(x, saved, store.rows, Node(Object, unused));
    ghost var created := store.rows;
    var registered := Register(store, x, id);
    if registered.Err? {
      store.rows, store.located, store.log, store.rank, store.bound := saved, savedLocations, savedLog, rank, bound;
      return Err(registered.error);
    }
    NewStep(x, id, saved, savedLocations, created, store.rows, store.located);
    store.ClearLog();
    return Ok(id);
  }

  lemma NoStep(x: Item, rows: Rows, located: map<nat, nat>)
    ensures if x.location in located then Stepped(x, rows, located, rows, located, Ok(located[x.location]))
            else forall e :: Stepped(x, rows, located, rows, located, Err(e))
  {
  }

  lemma NewStep(x: Item, id: nat, before: Rows, known: map<nat, nat>, created: Rows, after: Rows, located: map<nat, nat>)
    requires x.location !in known && located == known[x.location := id] && Node(Object, id) !in before
    requires created == before[Node(Object, id) := Row(0, Untracked, [])] && !x.node.table.Object?
    requires SyncedRow(after, x.node) && OnlyMore(created, after) && after.Keys == created.Keys + {x.node}
    requires after[x.node].refs == if x.node in created then created[x.node].refs else x.refs
    requires after[x.node].mode == if SyncedRow(created, x.node) then created[x.node].mode else Synced(id)
    requires forall n :: n in created && n != x.node ==> after[n].mode == created[n].mode
    ensures Stepped(x, before, known, after, located, Ok(id)) && OnlyMore(before, after)
  {
  }

  lemma NotReferred(rows: Rows, holders: Holders, id: nat, n: Node)
    requires Counted(rows, holders, multiset{}) && Node(Object, id) !in rows
    ensures n in rows && rows[n].mode.Synced? ==> rows[n].mode.remote != id
  {
    CountedIsClosed(rows, holders, multiset{});
    hide Counted;
    if n in rows && rows[n].mode.Synced? {
      assert Node(Object, rows[n].mode.remote) in Out(rows[n]);
    }
  }

  lemma CanRegisterSame(x: Item, before: Rows, after: Rows, o: Node)
    requires o.table.Object? && o !in before && after == before[o := Row(0, Untracked, [])]
    requires !x.node.table.Object? && forall t :: t in x.refs ==> !t.table.Object?
    ensures CanRegister(x, after) <==> CanRegister(x, before)
  {
  }

  // ---------- a run over a list ----------

  /** The first `i` items are registered, and the records fit. */
  ghost predicate Pulled(s: seq<Item>, i: nat, rows: Rows, located: map<nat, nat>) {
    Recorded(s, rows, located) && forall j :: 0 <= j < i && j < |s| ==> SyncedRow(rows, s[j].node)
  }

  lemma NextIsAccepted(s: seq<Item>, i: nat, first: Rows, rows: Rows, located: map<nat, nat>)
    requires i < |s| && Pulled(s, i, rows, located) && RefsFirst(s, first) && OnlyMore(first, rows) && Typed(s[i])
    requires s[i].location !in located
    requires s[i].node in rows ==> rows[s[i].node].mode.Local? || rows[s[i].node].mode.Synced?
    ensures CanRegister(s[i], rows)
  {
    forall t | t in s[i].refs ensures t in rows {
      if t !in first {
        var j :| 0 <= j < i && j < |s| && s[j].node == t;
        assert SyncedRow(rows, s[j].node);
      }
    }
  }

  lemma PulledMore(s: seq<Item>, i: nat, rows: Rows, located: map<nat, nat>, rows': Rows, located': map<nat, nat>)
    requires i < |s| && Pulled(s, i, rows, located) && ListedOnce(s) && AllTyped(s)
    requires located'.Keys == located.Keys + {s[i].location} && OnlyMore(rows, rows')
    requires s[i].location in located ==> rows' == rows
    requires s[i].location !in located ==> SyncedRow(rows', s[i].node)
    requires forall n :: n != s[i].node && !n.table.Object? ==> (SyncedRow(rows', n) <==> SyncedRow(rows, n))
    ensures Pulled(s, i + 1, rows', located')
  {
    forall j | 0 <= j < |s| ensures s[j].location in located' <==> SyncedRow(rows', s[j].node) {
      assert Typed(s[j]);
      if j < i { assert s[j].location != s[i].location && s[j].node != s[i].node; }
      if i < j { assert s[i].location != s[j].location && s[i].node != s[j].node; }
    }
    forall j | 0 <= j < i + 1 ensures SyncedRow(rows', s[j].node) {
      if j < i { assert SyncedRow(rows, s[j].node); }
    }
  }

  // ---------- what any run comes to ----------

  function NodesOf(s: seq<Item>): set<Node> {
    set x | x in s :: x.node
  }

  /** A new location brought its item: with the listed references if it is new, and synced there if it was not. */
  ghost predicate Arrived(x: Item, first: Rows, known: map<nat, nat>, rows: Rows, located: map<nat, nat>) {
    x.location in located && x.location !in known ==>
      && SyncedRow(rows, x.node)
      && (x.node !in first ==> rows[x.node].refs == x.refs)
      && (!SyncedRow(first, x.node) ==> rows[x.node].mode == Synced(located[x.location]))
  }

  /** The listed locations without an object row. */
  function Missing(s: seq<Item>, located: map<nat, nat>): set<nat> {
    set x | x in s && x.location !in located :: x.location
  }

  /** Whatever the order: known objects stay, all that is new is an item's, an item that could have been
      registered at the start is there, and `failed` counts those that are not. */
  ghost predicate Processed(s: seq<Item>, first: Rows, known: map<nat, nat>, rows: Rows, located: map<nat, nat>,
                            failed: nat) {
    && OnlyItems(NodesOf(s), first, rows)
    && (forall l :: l in known ==> l in located && located[l] == known[l])
    && (forall l :: l in located && l !in known ==> exists i :: 0 <= i < |s| && s[i].location == l)
    && (forall i :: 0 <= i < |s| ==> Arrived(s[i], first, known, rows, located))
    && (forall i :: 0 <= i < |s| && CanRegister(s[i], first) ==> s[i].location in located)
    && failed == |Missing(s, located)|
  }

  lemma ProcessedNone(first: Rows, known: map<nat, nat>)
    ensures Processed([], first, known, first, known, 0)
  {
  }

  /** What can be registered at the start can be registered when its turn comes. */
  lemma StillRegistrable(s: seq<Item>, i: nat, first: Rows, known: map<nat, nat>, rows: Rows, located: map<nat, nat>,
                         failed: nat)
    requires i < |s| && ListedOnce(s) && Typed(s[i]) && Processed(s[..i], first, known, rows, located, failed)
    requires OnlyMore(first, rows) && CanRegister(s[i], first)
    requires s[i].node in rows ==> rows[s[i].node].mode.Local? || rows[s[i].node].mode.Synced?
    ensures CanRegister(s[i], rows)
  {
    ItemOnce(s, i);
  }

  lemma ItemOnce(s: seq<Item>, i: nat)
    requires i < |s| && ListedOnce(s)
    ensures s[i].node !in NodesOf(s[..i]) && forall j :: 0 <= j < i ==> s[..i][j].location != s[i].location
  {
    forall x | x in s[..i] ensures x.node != s[i].node {
      var j :| 0 <= j < i && s[..i][j] == x;
    }
  }

  lemma StillArrived(x: Item, first: Rows, known: map<nat, nat>, rows: Rows, located: map<nat, nat>, rows': Rows,
                     located': map<nat, nat>)
    requires Arrived(x, first, known, rows, located) && OnlyMore(rows, rows')
    requires x.location in located' ==> x.location in located && located'[x.location] == located[x.location]
    ensures Arrived(x, first, known, rows', located')
  {
  }

  lemma ItemArrived(x: Item, items: set<Node>, first: Rows, known: map<nat, nat>, rows: Rows, located: map<nat, nat>,
                    rows': Rows, located': map<nat, nat>, r: Result<nat, PullError>)
    requires Stepped(x, rows, located, rows', located', r) && OnlyItems(items, first, rows)
    requires x.node !in items && Typed(x)
    requires x.location in located ==> x.location in known
    ensures Arrived(x, first, known, rows', located')
  {
  }

  lemma MissingMore(s: seq<Item>, x: Item, located: map<nat, nat>, located': map<nat, nat>, r: Result<nat, PullError>)
    requires forall j :: 0 <= j < |s| ==> s[j].location != x.location
    requires if r.Ok? then located' == located[x.location := r.value] else located' == located && x.location !in located
    ensures |Missing(s + [x], located')| == |Missing(s, located)| + if r.Ok? then 0 else 1
  {
    assert x.location !in Missing(s, located);
    assert Missing(s + [x], located') == Missing(s, located) + if r.Ok? then {} else {x.location};
  }

  lemma LocatedMore(s: seq<Item>, x: Item, known: map<nat, nat>, located: map<nat, nat>, located': map<nat, nat>,
                    r: Result<nat, PullError>)
    requires if r.Ok? then located' == located[x.location := r.value] else located' == located
    requires r.Ok? && x.location in known ==> located' == located
    requires forall l :: l in known ==> l in located && located[l] == known[l]
    requires forall l :: l in located && l !in known ==> exists i :: 0 <= i < |s| && s[i].location == l
    ensures forall l :: l in known ==> l in located' && located'[l] == known[l]
    ensures forall l :: l in located' && l !in known ==> exists i :: 0 <= i < |s + [x]| && (s + [x])[i].location == l
  {
    forall l | l in located' && l !in known ensures exists j :: 0 <= j < |s + [x]| && (s + [x])[j].location == l {
      if l in located {
        var j :| 0 <= j < |s| && s[j].location == l;
        assert (s + [x])[j].location == l;
      } else {
        assert (s + [x])[|s|].location == l;
      }
    }
  }

  lemma OnlyItemsMore(s: seq<Item>, x: Item, first: Rows, rows: Rows, rows': Rows)
    requires OnlyItems(NodesOf(s), first, rows) && OnlyItems({x.node}, rows, rows')
    ensures OnlyItems(NodesOf(s + [x]), first, rows')
  {
    hide SyncedRow;
    assert NodesOf(s + [x]) == NodesOf(s) + {x.node};
  }

  lemma AllArrived(s: seq<Item>, x: Item, first: Rows, known: map<nat, nat>, rows: Rows, located: map<nat, nat>,
                   rows': Rows, located': map<nat, nat>, r: Result<nat, PullError>)
    requires forall i :: 0 <= i < |s| ==> Arrived(s[i], first, known, rows, located) && s[i].location != x.location
    requires OnlyMore(rows, rows') && Stepped(x, rows, located, rows', located', r)
    requires Arrived(x, first, known, rows', located')
    ensures forall i :: 0 <= i < |s + [x]| ==> Arrived((s + [x])[i], first, known, rows', located')
  {
    hide OnlyMore, Arrived, OnlyItems;
    forall i | 0 <= i < |s + [x]| ensures Arrived((s + [x])[i], first, known, rows', located') {
      if i < |s| { StillArrived(s[i], first, known, rows, located, rows', located'); }
    }
  }

  lemma ProcessedMore(s: seq<Item>, x: Item, first: Rows, known: map<nat, nat>, rows: Rows, located: map<nat, nat>,
                      failed: nat, rows': Rows, located': map<nat, nat>, r: Result<nat, PullError>)
    requires Processed(s, first, known, rows, located, failed) && x.node !in NodesOf(s) && Typed(x)
    requires forall i :: 0 <= i < |s| ==> s[i].location != x.location
    requires OnlyMore(rows, rows') && (CanRegister(x, first) ==> r.Ok?) && Stepped(x, rows, located, rows', located', r)
    ensures Processed(s + [x], first, known, rows', located', if r.Ok? then failed else failed + 1)
  {
    hide CanRegister, OnlyItems, Arrived, Missing, NodesOf, OnlyMore, Typed;
    ItemArrived(x, NodesOf(s), first, known, rows, located, rows', located', r);
    AllArrived(s, x, first, known, rows, located, rows', located', r);
    LocatedMore(s, x, known, located, located', r);
    MissingMore(s, x, located, located', r);
    OnlyItemsMore(s, x, first, rows, rows');
  }

  lemma SameProcessed(s: seq<Item>, t: seq<Item>, first: Rows, known: map<nat, nat>, rows: Rows, located: map<nat, nat>,
                      failed: nat)
    requires Processed(s, first, known, rows, located, failed) && forall x :: x in s <==> x in t
    ensures Processed(t, first, known, rows, located, failed)
  {
    hide CanRegister, Arrived;
    assert NodesOf(s) == NodesOf(t) && Missing(s, located) == Missing(t, located);
    forall i | 0 <= i < |t|
      ensures Arrived(t[i], first, known, rows, located) && (CanRegister(t[i], first) ==> t[i].location in located)
    {
      assert t[i] in t;
      var j :| 0 <= j < |s| && s[j] == t[i];
    }
    forall l | l in located && l !in known ensures exists i :: 0 <= i < |t| && t[i].location == l {
      var j :| 0 <= j < |s| && s[j].location == l;
      assert s[j] in s;
      var i :| 0 <= i < |t| && t[i] == s[j];
    }
  }

  /** `process_objects` with a concurrency of 1, for all groups in turn: failures are logged and skipped.
      In an order where references come first nothing fails, and every item is registered. */
  method ProcessObjects(store: Store, s: seq<Item>, ghost homes: Node -> nat) returns (failed: nat)
    requires store.Valid() && AllTyped(s)
    modifies store
    ensures store.Valid() && OnlyMore(old(store.rows), store.rows) && store.holders == old(store.holders)
    ensures old(store.Committed()) ==> store.Committed()
    ensures ListedOnce(s) ==> Processed(s, old(store.rows), old(store.located), store.rows, store.located, failed)
    ensures ListedOnce(s) && RefsFirst(s, old(store.rows)) && Recorded(s, old(store.rows), old(store.located)) ==>
      failed == 0 && Pulled(s, |s|, store.rows, store.located)
    ensures OwnHomes(homes) && ListedAtHome(homes, s) && AtHome(homes, old(store.rows), old(store.located)) ==>
      AtHome(homes, store.rows, store.located)
  {
    hide OwnHomes, AtHome, ListedAtHome;
    hide Counted, Ordered, CanRegister, OnlyMore, Pulled, Recorded, RefsFirst, ListedOnce, Typed, SyncedRow;
    hide Processed, AllTyped, NodesOf;
    ghost var first, known := store.rows, store.located;
    ghost var good := ListedOnce(s) && RefsFirst(s, first) && Recorded(s, first, store.located);
    ghost var homed := OwnHomes(homes) && ListedAtHome(homes, s) && AtHome(homes, first, store.located);
    failed := 0;
    NoChange(first);
    if good { PulledNone(s, first, store.located); }
    ProcessedNone(first, known);
    assert s[..0] == [];
    for i := 0 to |s|
      invariant store.Valid() && OnlyMore(first, store.rows) && store.holders == old(store.holders)
      invariant old(store.Committed()) ==> store.Committed()
      invariant ListedOnce(s) ==> Processed(s[..i], first, known, store.rows, store.located, failed)
      invariant good ==> failed == 0 && Pulled(s, i, store.rows, store.located)
      invariant homed ==> AtHome(homes, store.rows, store.located)
    {
      ghost var rows, located := store.rows, store.located;
      TypedAt(s, i);
      TypedRefs(s[i]);
      RowMode(rows, located, store.rank, store.bound, s[i].node);
      if good && s[i].location !in located { NextIsAccepted(s, i, first, rows, located); }
      if ListedOnce(s) && CanRegister(s[i], first) { StillRegistrable(s, i, first, known, rows, located, failed); }
      var synced := SyncObject(store, s[i]);
      if ListedOnce(s) {
        ItemOnce(s, i);
        assert s[..i + 1] == s[..i] + [s[i]];
        ProcessedMore(s[..i], s[i], first, known, rows, located, failed, store.rows, store.located, synced);
      }
      MoreTransitive(first, rows, store.rows);
      if homed { StillAtHome(homes, s, i, rows, located, store.rows, store.located, synced.Ok?); }
      if synced.Err? {
        failed := failed + 1;
      } else if good {
        PulledMore(s, i, rows, located, store.rows, store.located);
      }
    }
    assert s[..|s|] == s;
  }

  lemma StillAtHome(homes: Node -> nat, s: seq<Item>, i: nat, rows: Rows, located: map<nat, nat>, rows': Rows,
                    located': map<nat, nat>, done: bool)
    requires i < |s| && OwnHomes(homes) && ListedAtHome(homes, s) && AtHome(homes, rows, located) && Typed(s[i])
    requires !done || s[i].location in located ==> rows' == rows && located' == located
    requires done && s[i].location !in located ==> SyncedRow(rows', s[i].node) && located'.Keys == located.Keys + {s[i].location}
    requires forall n :: n != s[i].node && !n.table.Object? ==> (SyncedRow(rows', n) <==> SyncedRow(rows, n))
    ensures AtHome(homes, rows', located')
  {
    hide SyncedRow, OwnHomes, AtHome;
    if done && s[i].location !in located {
      OneMoreAtHome(homes, s[i].node, rows, located, rows', located');
    }
  }

  lemma TypedAt(s: seq<Item>, i: nat)
    requires AllTyped(s) && i < |s|
    ensures Typed(s[i])
  {
  }

  lemma NoChange(rows: Rows)
    ensures OnlyMore(rows, rows)
  {
  }

  lemma PulledNone(s: seq<Item>, rows: Rows, located: map<nat, nat>)
    requires Recorded(s, rows, located)
    ensures Pulled(s, 0, rows, located)
  {
  }

  // ---------- the order of a run ----------

  function Phase(x: Item): nat {
    match x.node.table
    case Chunk => 0
    case Blob => 1
    case Entity(_) => 2
    case Commit => 3
    case Object => 4
  }

  /** Groups in dependency order, and a directory after the listed entities in its body. */
  ghost predicate PullOrder(s: seq<Item>) {
    && (forall i, j :: 0 <= i < j < |s| ==> Phase(s[i]) <= Phase(s[j]))
    && (forall i, j :: 0 <= i < |s| && 0 <= j < |s| && ContainedIn(s[i], s[j]) ==> i < j)
  }

  predicate ContainedIn(x: Item, dir: Item) {
    x.node.table.Entity? && IsDir(dir) && x.node in dir.refs
  }

  /** The order is enough: in a closed set every reference comes first. */
  lemma OrderPutsRefsFirst(s: seq<Item>, rows: Rows)
    requires PullOrder(s) && AllTyped(s) && ClosedSet(s, rows)
    ensures RefsFirst(s, rows)
  {
    forall i, t | 0 <= i < |s| && t in s[i].refs && t !in rows ensures Before(s, i, t) {
      assert Before(s, |s|, t);
      var j :| 0 <= j < |s| && s[j].node == t;
      assert Typed(s[i]);
      if Phase(s[j]) == Phase(s[i]) {
        assert ContainedIn(s[j], s[i]);
      } else {
        assert Phase(s[j]) < Phase(s[i]);
        assert !(i < j) && i != j;
      }
    }
  }

  function OfPhase(s: seq<Item>, phase: nat): (r: seq<Item>)
    ensures forall x :: x in r <==> x in s && Phase(x) == phase
  {
    if s == [] then []
    else
      assert s == [s[0]] + s[1..];
      (if Phase(s[0]) == phase then [s[0]] else []) + OfPhase(s[1..], phase)
  }

  lemma {:induction false} OfPhaseDistinct(s: seq<Item>, phase: nat)
    requires Distinct.NoRepeats(s)
    ensures Distinct.NoRepeats(OfPhase(s, phase))
    decreases |s|
  {
    if s != [] {
      assert s == [s[0]] + s[1..];
      assert s[0] !in s[1..];
      OfPhaseDistinct(s[1..], phase);
    }
  }

  /** What `sort_entities` looks at. */
  function AsRemote(x: Item): SortEntities.Remote {
    SortEntities.Remote(x.location, if IsDir(x) then Some(SortEntities.Listing(KeyOf(x.node), KeysOf(x.refs))) else None)
  }

  predicate IsDir(x: Item) {
    x.node.table == Entity(true)
  }

  /** Entity keys, counted through both types. */
  function KeyOf(n: Node): nat {
    2 * n.id + if n.table == Entity(true) then 1 else 0
  }

  function KeysOf(refs: seq<Node>): (r: seq<nat>)
    ensures |r| == |refs| && forall i :: 0 <= i < |r| ==> r[i] == KeyOf(refs[i])
  {
    if refs == [] then [] else [KeyOf(refs[0])] + KeysOf(refs[1..])
  }

  function AsRemotes(s: seq<Item>): (r: seq<SortEntities.Remote>)
    ensures |r| == |s| && forall i :: 0 <= i < |r| ==> r[i] == AsRemote(s[i])
  {
    if s == [] then [] else [AsRemote(s[0])] + AsRemotes(s[1..])
  }

  lemma RemotesWellListed(s: seq<Item>)
    requires ListedOnce(s) && forall i :: 0 <= i < |s| ==> s[i].node.table.Entity?
    ensures SortEntities.WellListed(AsRemotes(s)) && Distinct.NoRepeats(AsRemotes(s))
  {
    var r := AsRemotes(s);
    forall i, j | 0 <= i < |r| && 0 <= j < |r| && r[i].dir.Some? && r[j].dir.Some? && r[i].dir.value.key == r[j].dir.value.key
      ensures r[i].dir == r[j].dir
    {
      assert s[i].node == s[j].node;
      assert !(i < j) && !(j < i);
    }
  }

  /** `items[i]` is what `sorted[i]` stands for. */
  ghost predicate Behind(s: seq<Item>, sorted: seq<SortEntities.Remote>, items: seq<Item>) {
    |items| == |sorted| && forall j :: 0 <= j < |items| ==> items[j] in s && AsRemote(items[j]) == sorted[j]
  }

  lemma SameRemoteSameItem(s: seq<Item>, x: Item, y: Item)
    requires ListedOnce(s) && x in s && y in s && AsRemote(x) == AsRemote(y)
    ensures x == y
  {
    var i :| 0 <= i < |s| && s[i] == x;
    var j :| 0 <= j < |s| && s[j] == y;
    assert s[i].location == s[j].location;
  }

  lemma SortedMembers(s: seq<Item>, sorted: seq<SortEntities.Remote>, items: seq<Item>)
    requires ListedOnce(s) && Distinct.NoRepeats(sorted) && Behind(s, sorted, items)
    requires forall o :: o in sorted <==> o in AsRemotes(s)
    ensures Distinct.NoRepeats(items) && forall x :: x in items <==> x in s
  {
    forall x | x in s ensures x in items {
      var i :| 0 <= i < |s| && s[i] == x;
      assert AsRemotes(s)[i] in sorted;
      var j :| 0 <= j < |sorted| && sorted[j] == AsRemote(x);
      SameRemoteSameItem(s, x, items[j]);
    }
  }

  lemma SortedOrder(s: seq<Item>, sorted: seq<SortEntities.Remote>, items: seq<Item>)
    requires Behind(s, sorted, items) && SortEntities.ChildrenFirst(sorted)
    requires forall x :: x in s ==> x.node.table.Entity?
    ensures PullOrder(items)
  {
    forall i | 0 <= i < |items| ensures Phase(items[i]) == 2 { assert items[i] in s; }
    forall i, j | 0 <= i < |items| && 0 <= j < |items| && ContainedIn(items[i], items[j]) ensures i < j {
      var x, dir := items[i], items[j];
      assert sorted[i] == AsRemote(x) && sorted[j] == AsRemote(dir);
      var k :| 0 <= k < |dir.refs| && dir.refs[k] == x.node;
      assert KeysOf(dir.refs)[k] == KeyOf(x.node);
      if IsDir(x) { assert SortEntities.InBodyOf(sorted[i], sorted[j]); }
    }
  }

  lemma KeysAreOwn(a: Node, b: Node)
    requires a.table.Entity? && b.table.Entity? && KeyOf(a) == KeyOf(b)
    ensures a == b
  {
  }

  /** Listed directories, each of which lists the next. */
  ghost predicate DirChain(s: seq<Item>, p: seq<Item>) {
    && (forall i :: 0 <= i < |p| ==> p[i] in s && IsDir(p[i]))
    && (forall i, j :: 0 <= i && j == i + 1 < |p| ==> p[j].node in p[i].refs)
  }

  lemma DirOf(s: seq<Item>, k: nat) returns (x: Item)
    requires k in SortEntities.DirsIn(AsRemotes(s))
    ensures x in s && IsDir(x) && KeyOf(x.node) == k && SortEntities.DirsIn(AsRemotes(s))[k] == KeysOf(x.refs)
  {
    SortEntities.DirsInFrom(AsRemotes(s), k);
    var dirs := SortEntities.DirsIn(AsRemotes(s));
    var i :| 0 <= i < |AsRemotes(s)| && AsRemotes(s)[i].dir == Some(SortEntities.Listing(k, dirs[k]));
    x := s[i];
  }

  lemma InBody(x: Item, y: Item)
    requires Typed(x) && IsDir(x) && IsDir(y) && KeyOf(y.node) in KeysOf(x.refs)
    ensures y.node in x.refs
  {
    var i :| 0 <= i < |x.refs| && KeysOf(x.refs)[i] == KeyOf(y.node);
    KeysAreOwn(x.refs[i], y.node);
  }

  lemma ChainTail(dirs: SortEntities.Dirs, p: seq<nat>)
    requires SortEntities.Chain(dirs, p)
    ensures p != [] && p[0] in dirs
    ensures |p| > 1 ==> SortEntities.Chain(dirs, p[1..]) && p[1] in dirs[p[0]]
  {
    if |p| > 1 {
      assert SortEntities.Lists(dirs, p[0], p[1]);
      forall i, j | 0 <= i && j == i + 1 < |p[1..]| ensures SortEntities.Lists(dirs, p[1..][i], p[1..][j]) {
        assert SortEntities.Lists(dirs, p[i + 1], p[j + 1]);
      }
    }
  }

  lemma DirChainMore(s: seq<Item>, x: Item, rest: seq<Item>)
    requires AllTyped(s) && x in s && IsDir(x) && DirChain(s, rest)
    requires rest != [] && KeyOf(rest[0].node) in KeysOf(x.refs)
    ensures DirChain(s, [x] + rest)
  {
    MembersTyped(s, [x]);
    assert Typed([x][0]);
    InBody(x, rest[0]);
  }

  /** A chain of keys is one of items. */
  lemma {:induction false} ChainOfItems(s: seq<Item>, p: seq<nat>) returns (q: seq<Item>)
    requires AllTyped(s) && SortEntities.Chain(SortEntities.DirsIn(AsRemotes(s)), p)
    ensures DirChain(s, q) && |q| == |p| && KeyOf(q[0].node) == p[0]
    decreases |p|
  {
    var dirs := SortEntities.DirsIn(AsRemotes(s));
    hide AllTyped, SortEntities.Chain, SortEntities.DirsIn, KeyOf, KeysOf, AsRemotes;
    ChainTail(dirs, p);
    var x := DirOf(s, p[0]);
    q := [x];
    if |p| > 1 {
      var rest := ChainOfItems(s, p[1..]);
      DirChainMore(s, x, rest);
      q := [x] + rest;
    }
  }

  /** The sorted entities: the same items, each directory after what it contains. */
  method SortItems(s: seq<Item>) returns (r: Result<seq<Item>, PullError>)
    requires ListedOnce(s) && AllTyped(s) && forall i :: 0 <= i < |s| ==> s[i].node.table.Entity?
    ensures r.Err? ==> exists p :: DirChain(s, p) && |p| == SortEntities.MAX_DEPTH + 1
    ensures r.Ok? ==> Distinct.NoRepeats(r.value) && PullOrder(r.value) && forall x :: x in r.value <==> x in s
  {
    hide *;
    RemotesWellListed(s);
    var sorted := SortEntities.SortEntities(AsRemotes(s));
    if sorted.Err? {
      LongChain(s);
      return Err(MaxDepthExceeded);
    }
    Distinct.PermutationKeepsDistinct(AsRemotes(s), sorted.value);
    var items := ItemsOf(s, sorted.value);
    SortedMembers(s, sorted.value, items);
    EntityMembers(s);
    SortedOrder(s, sorted.value, items);
    return Ok(items);
  }

  lemma LongChain(s: seq<Item>)
    requires AllTyped(s) && SortEntities.SomeChain(SortEntities.DirsIn(AsRemotes(s)), SortEntities.MAX_DEPTH + 1)
    ensures exists p :: DirChain(s, p) && |p| == SortEntities.MAX_DEPTH + 1
  {
    var dirs, n := SortEntities.DirsIn(AsRemotes(s)), SortEntities.MAX_DEPTH + 1;
    hide AllTyped, SortEntities.Chain, DirChain;
    var k :| SortEntities.ChainFrom(dirs, k, n);
    var p :| |p| == n && SortEntities.Chain(dirs, p) && p[0] == k;
    var q := ChainOfItems(s, p);
    assert DirChain(s, q);
  }

  lemma EntityMembers(s: seq<Item>)
    requires forall i :: 0 <= i < |s| ==> s[i].node.table.Entity?
    ensures forall x :: x in s ==> x.node.table.Entity?
  {
  }

  /** The items the sorted remote objects stand for. */
  method ItemsOf(s: seq<Item>, sorted: seq<SortEntities.Remote>) returns (items: seq<Item>)
    requires forall o :: o in sorted ==> o in AsRemotes(s)
    ensures Behind(s, sorted, items)
  {
    items := [];
    for i := 0 to |sorted|
      invariant Behind(s, sorted[..i], items)
    {
      assert sorted[i] in sorted;
      var k :| 0 <= k < |s| && AsRemotes(s)[k] == sorted[i];
      items := items + [s[k]];
    }
    assert sorted[..|sorted|] == sorted;
  }

  // ---------- the run ----------

  lemma SubsetListedOnce(remote: seq<Item>, s: seq<Item>)
    requires ListedOnce(remote) && Distinct.NoRepeats(s) && forall x :: x in s ==> x in remote
    ensures ListedOnce(s)
  {
    forall i, j | 0 <= i < j < |s| ensures s[i].location != s[j].location && s[i].node != s[j].node {
      assert s[i] in s && s[j] in s;
      var a :| 0 <= a < |remote| && remote[a] == s[i];
      var b :| 0 <= b < |remote| && remote[b] == s[j];
      assert a != b;
    }
  }

  lemma ListedHasNoRepeats(s: seq<Item>)
    requires ListedOnce(s)
    ensures Distinct.NoRepeats(s)
  {
  }

  /** Two stretches of which the first has the lower phases. */
  lemma OrderConcat(a: seq<Item>, b: seq<Item>, phase: nat)
    requires PullOrder(a) && PullOrder(b)
    requires (forall x :: x in a ==> Phase(x) < phase) && (forall x :: x in b ==> Phase(x) >= phase)
    ensures PullOrder(a + b)
  {
    var s := a + b;
    forall i, j | 0 <= i < j < |s| ensures Phase(s[i]) <= Phase(s[j]) {
      if i < |a| <= j { assert a[i] in a && b[j - |a|] in b; }
    }
    forall i, j | 0 <= i < |s| && 0 <= j < |s| && ContainedIn(s[i], s[j]) ensures i < j {
      assert j < |a| ==> s[j] in a;
      assert |a| <= i ==> s[i] in b;
      assert !(j < |a| && |a| <= i);
      if i < |a| && j < |a| { assert ContainedIn(a[i], a[j]); }
      if |a| <= i && |a| <= j { assert ContainedIn(b[i - |a|], b[j - |a|]); }
    }
  }

  lemma OnePhaseOrder(s: seq<Item>, phase: nat)
    requires phase != 2
    ensures PullOrder(OfPhase(s, phase))
  {
    var r := OfPhase(s, phase);
    forall i | 0 <= i < |r| ensures Phase(r[i]) == phase { assert r[i] in r; }
  }

  lemma MembersTyped(remote: seq<Item>, s: seq<Item>)
    requires AllTyped(remote) && forall x :: x in s ==> x in remote
    ensures AllTyped(s)
  {
    forall i | 0 <= i < |s| ensures Typed(s[i]) {
      assert s[i] in s;
      var a :| 0 <= a < |remote| && remote[a] == s[i];
    }
  }

  lemma MembersClosed(remote: seq<Item>, s: seq<Item>, rows: Rows)
    requires ClosedSet(remote, rows) && forall x :: x in s <==> x in remote
    ensures ClosedSet(s, rows)
  {
    forall i | 0 <= i < |s| ensures OfDirectory(s[i]) {
      assert s[i] in s;
      var a :| 0 <= a < |remote| && remote[a] == s[i];
    }
    forall i, t | 0 <= i < |s| && t in s[i].refs && t !in rows ensures Before(s, |s|, t) {
      assert s[i] in s;
      var a :| 0 <= a < |remote| && remote[a] == s[i];
      assert Before(remote, |remote|, t);
      var b :| 0 <= b < |remote| && remote[b].node == t;
      assert remote[b] in s;
      var c :| 0 <= c < |s| && s[c] == remote[b];
    }
  }

  lemma MembersRecorded(remote: seq<Item>, s: seq<Item>, rows: Rows, located: map<nat, nat>)
    requires Recorded(remote, rows, located) && forall x :: x in s ==> x in remote
    ensures Recorded(s, rows, located)
  {
    forall i | 0 <= i < |s| ensures s[i].location in located <==> SyncedRow(rows, s[i].node) {
      assert s[i] in s;
      var a :| 0 <= a < |remote| && remote[a] == s[i];
    }
  }

  /** All groups, in the order they are processed in. */
  function InOrder(remote: seq<Item>, entities: seq<Item>): seq<Item> {
    OfPhase(remote, 0) + OfPhase(remote, 1) + entities + OfPhase(remote, 3)
  }

  ghost predicate SortedEntities(remote: seq<Item>, entities: seq<Item>) {
    Distinct.NoRepeats(entities) && PullOrder(entities) && forall x :: x in entities <==> x in OfPhase(remote, 2)
  }

  lemma TableInRange(remote: seq<Item>, x: Item)
    requires AllTyped(remote) && x in remote
    ensures !x.node.table.Object?
  {
    var a :| 0 <= a < |remote| && remote[a] == x;
    assert Typed(remote[a]);
  }

  lemma InOrderMembers(remote: seq<Item>, entities: seq<Item>)
    requires AllTyped(remote) && SortedEntities(remote, entities)
    ensures forall x :: x in InOrder(remote, entities) <==> x in remote
  {
    hide OfPhase, AllTyped, PullOrder;
    forall x | x in remote ensures x in InOrder(remote, entities) { TableInRange(remote, x); }
  }

  lemma InOrderDistinct(remote: seq<Item>, entities: seq<Item>)
    requires ListedOnce(remote) && SortedEntities(remote, entities)
    ensures Distinct.NoRepeats(InOrder(remote, entities))
  {
    ListedHasNoRepeats(remote);
    OfPhaseDistinct(remote, 0);
    OfPhaseDistinct(remote, 1);
    OfPhaseDistinct(remote, 3);
    hide Distinct.NoRepeats, OfPhase, PullOrder, ListedOnce;
    var (c, b, m) := (OfPhase(remote, 0), OfPhase(remote, 1), OfPhase(remote, 3));
    Distinct.ConcatDistinct(c, b);
    Distinct.ConcatDistinct(c + b, entities);
    Distinct.ConcatDistinct(c + b + entities, m);
  }

  lemma InOrderIsOrdered(remote: seq<Item>, entities: seq<Item>)
    requires SortedEntities(remote, entities)
    ensures PullOrder(InOrder(remote, entities))
  {
    OnePhaseOrder(remote, 0);
    OnePhaseOrder(remote, 1);
    OnePhaseOrder(remote, 3);
    hide Distinct.NoRepeats, OfPhase, PullOrder;
    var (c, b, m) := (OfPhase(remote, 0), OfPhase(remote, 1), OfPhase(remote, 3));
    OrderConcat(c, b, 1);
    OrderConcat(c + b, entities, 2);
    OrderConcat(c + b + entities, m, 3);
  }

  /** What the remote storage and the tables have to look like for a run to be complete. */
  ghost predicate Complete(remote: seq<Item>, rows: Rows, located: map<nat, nat>) {
    ListedOnce(remote) && AllTyped(remote) && ClosedSet(remote, rows) && Recorded(remote, rows, located)
  }

  lemma CompleteInOrder(remote: seq<Item>, entities: seq<Item>, rows: Rows, located: map<nat, nat>)
    requires Complete(remote, rows, located) && SortedEntities(remote, entities)
    ensures var s := InOrder(remote, entities);
            ListedOnce(s) && AllTyped(s) && RefsFirst(s, rows) && Recorded(s, rows, located)
    ensures forall x :: x in InOrder(remote, entities) <==> x in remote
  {
    hide ListedOnce, AllTyped, ClosedSet, Recorded, SortedEntities, InOrder, PullOrder, RefsFirst, Distinct.NoRepeats;
    var s := InOrder(remote, entities);
    InOrderMembers(remote, entities);
    InOrderDistinct(remote, entities);
    InOrderIsOrdered(remote, entities);
    SubsetListedOnce(remote, s);
    MembersTyped(remote, s);
    MembersClosed(remote, s, rows);
    MembersRecorded(remote, s, rows, located);
    OrderPutsRefsFirst(s, rows);
  }

  lemma HomesInOrder(homes: Node -> nat, remote: seq<Item>, s: seq<Item>)
    requires ListedAtHome(homes, remote) && forall x :: x in s ==> x in remote
    ensures ListedAtHome(homes, s)
  {
    forall i | 0 <= i < |s| ensures s[i].location == homes(s[i].node) {
      assert s[i] in s;
      var a :| 0 <= a < |remote| && remote[a] == s[i];
    }
  }

  /** `run`, with a concurrency of 1 and the configurations left to `Transactions.Volume.PullConfig`. The
      tables stay closed whatever fails. From a closed remote set every item arrives, and none fails; if
      uploads and listings put every item at its own location, the tables are always ready for that. */
  method Run(store: Store, remote: seq<Item>, ghost homes: Node -> nat) returns (r: Result<nat, PullError>)
    requires store.Valid() && AllTyped(remote) && ListedOnce(remote)
    modifies store
    ensures store.Valid() && OnlyMore(old(store.rows), store.rows) && store.holders == old(store.holders)
    ensures r.Err? ==> store.rows == old(store.rows) && store.located == old(store.located)
    ensures old(store.Committed()) ==> store.Committed()
    ensures r.Ok? ==> Processed(remote, old(store.rows), old(store.located), store.rows, store.located, r.value)
    ensures r.Err? ==>
      exists p :: DirChain(remote, p) && |p| == SortEntities.MAX_DEPTH + 1
    ensures r.Ok? && Complete(remote, old(store.rows), old(store.located)) ==>
      r.value == 0 && forall x :: x in remote ==> SyncedRow(store.rows, x.node)
    ensures OwnHomes(homes) && ListedAtHome(homes, remote) && AtHome(homes, old(store.rows), old(store.located)) ==>
      && AtHome(homes, store.rows, store.located)
      && (r.Ok? && ClosedSet(remote, old(store.rows)) ==>
            r.value == 0 && forall x :: x in remote ==> SyncedRow(store.rows, x.node))
  {
    hide Counted, Ordered, ListedOnce, AllTyped, ClosedSet, Recorded, PullOrder, RefsFirst, Distinct.NoRepeats;
    hide OnlyMore, AtHome, OwnHomes, ListedAtHome, OfPhase, Pulled, SyncedRow, Processed;
    NoChange(store.rows);
    var entities := OfPhase(remote, 2);
    ListedHasNoRepeats(remote);
    OfPhaseDistinct(remote, 2);
    SubsetListedOnce(remote, entities);
    MembersTyped(remote, entities);
    forall i | 0 <= i < |entities| ensures entities[i].node.table.Entity? { assert entities[i] in entities; }
    var sorted := SortItems(entities);
    if sorted.Err? {
      ghost var p :| DirChain(entities, p) && |p| == SortEntities.MAX_DEPTH + 1;
      assert DirChain(remote, p);
      return Err(sorted.error);
    }
    var s := InOrder(remote, sorted.value);
    InOrderMembers(remote, sorted.value);
    InOrderDistinct(remote, sorted.value);
    SubsetListedOnce(remote, s);
    MembersTyped(remote, s);
    ghost var first, known := store.rows, store.located;
    if AtHome(homes, store.rows, store.located) && ListedAtHome(homes, remote) {
      AtHomeIsRecorded(homes, remote, store.rows, store.located);
      HomesInOrder(homes, remote, s);
    }
    ghost var complete := Complete(remote, store.rows, store.located);
    if complete { CompleteInOrder(remote, sorted.value, store.rows, store.located); }
    var failed := ProcessObjects(store, s, homes);
    SameProcessed(s, remote, first, known, store.rows, store.located, failed);
    if complete { AllPulled(remote, s, store.rows, store.located); }
    return Ok(failed);
  }

  lemma AllPulled(remote: seq<Item>, s: seq<Item>, rows: Rows, located: map<nat, nat>)
    requires Pulled(s, |s|, rows, located) && forall x :: x in s <==> x in remote
    ensures forall x :: x in remote ==> SyncedRow(rows, x.node)
  {
    hide SyncedRow, Recorded;
    forall x | x in remote ensures SyncedRow(rows, x.node) {
      assert x in s;
      var i :| 0 <= i < |s| && s[i] == x;
    }
  }
}
