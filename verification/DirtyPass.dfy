/** The pass at the start of every commit that rebuilds the dirty directories bottom-up
    (janus-vfs/src/db.rs 192-266). */
module DirtyPass {
  import opened Wrappers
  import opened Trees
  import opened Marks
  import opened Entities
  import opened Merkle
  import opened TableSteps
  import opened ChangeLog
  import opened Statements
  import opened VfsTable

  datatype PassError = StatementFailed | InodeNotFound(i: InodeId) | DirtyFile(i: InodeId)

  /** The pass has been through `done - dirty`: those are rewritten over their present children. */
  ghost predicate Passed(nodes: Nodes, before: Keys, marked: set<InodeId>, keys: Keys, dirty: set<InodeId>) {
    && before.Keys == nodes.Keys && keys.Keys == nodes.Keys && dirty <= marked
    && (forall i :: i in nodes && (i !in marked || i in dirty) ==> keys[i] == before[i])
    && (forall i :: i in nodes && i in marked && i !in dirty ==> Rewritten(nodes, before, keys, i))
  }

  lemma PassStarts(nodes: Nodes, keys: Keys, dirty: set<InodeId>)
    requires keys.Keys == nodes.Keys
    ensures Passed(nodes, keys, dirty, keys, dirty)
  {
    hide Rewritten;
  }

  lemma PassEnds(nodes: Nodes, before: Keys, marked: set<InodeId>, keys: Keys)
    requires Passed(nodes, before, marked, keys, {})
    ensures Snapshot(nodes, before, marked, keys)
  {
    hide Rewritten;
  }

  lemma NotOwnChild(nodes: Nodes, i: InodeId)
    requires Tree(nodes) && i in nodes
    ensures nodes[i].parent != Some(i)
  {
    if i == RootInode {
      assert Parented(nodes, i);
    } else {
      ParentNotBelow(nodes, i);
      BelowSelf(nodes, i);
    }
  }

  lemma SameChildKeysBut(nodes: Nodes, keys: Keys, i: InodeId, key: EntityKey, p: InodeId)
    requires keys.Keys == nodes.Keys && i in nodes && nodes[i].parent != Some(p)
    ensures ChildKeys(nodes, keys[i := key], p) == ChildKeys(nodes, keys, p)
  {
    SameChildKeys(nodes, keys, keys[i := key], p);
  }

  /** One directory without dirty children is rewritten; nothing the pass did before is disturbed. */
  lemma PassStep(nodes: Nodes, before: Keys, marked: set<InodeId>, keys: Keys, dirty: set<InodeId>, i: InodeId, key: EntityKey)
    requires Tree(nodes) && Passed(nodes, before, marked, keys, dirty) && Closed(nodes, dirty) && i in dirty
    requires i in nodes
    requires DistinctIds(ChildKeys(nodes, keys, i)) && key == Rehashed(keys[i], ChildKeys(nodes, keys, i))
    ensures Passed(nodes, before, marked, keys[i := key], dirty - {i})
  {
    hide Tree, ChildKeys, SortedEntries, DistinctIds;
    var keys' := keys[i := key];
    assert MarkedAbove(nodes, dirty, i);
    NotOwnChild(nodes, i);
    forall j | j in nodes && j in marked && j !in dirty - {i} ensures Rewritten(nodes, before, keys', j) {
      SameChildKeysBut(nodes, keys, i, key, j);
      assert j != i ==> Rewritten(nodes, before, keys, j);
    }
  }

  /** The update of the rewritten directory is accepted, and clears its mark alone. */
  lemma RehashedFits(nodes: Nodes, keys: Keys, dirty: set<InodeId>, i: InodeId, key: EntityKey, entities: set<EntityKey>)
    requires Shaped(nodes, keys) && keys.Keys == nodes.Keys && i in nodes && nodes[i].kind.Dir? && key in entities
    requires key.id == keys[i].id && KindOf(key).Dir? && NameOf(key) == NameOf(keys[i])
    ensures CanUpdate(nodes, keys, i, key, entities) && Renamed(nodes, i, NameOf(key)) == nodes
  {
    assert NameOf(key) == nodes[i].name;
    forall j | j in nodes && j != i && nodes[i].parent.Some? && nodes[j].parent == nodes[i].parent
      ensures nodes[j].name != nodes[i].name
    {
      assert Parented(nodes, RootInode);
      assert !SameSlot(nodes, i, j);
    }
  }

  lemma ClearsOneMark(nodes: Nodes, keys: Keys, dirty: set<InodeId>, i: InodeId, key: EntityKey)
    requires Tree(nodes) && i in nodes && i in keys && Closed(nodes, dirty) && i in dirty
    ensures MarksAfterUpdate(nodes, keys, dirty, i, key) == dirty - {i}
  {
    if i != RootInode {
      ParentNotBelow(nodes, i);
      assert MarkedAbove(nodes, dirty, i);
      ClosedEverywhere(nodes, dirty, ParentOf(nodes, i));
      ClosedHoldsUpward(nodes, dirty, ParentOf(nodes, i));
    }
  }

  lemma RehashedIsHashed(nodes: Nodes, keys: Keys, i: InodeId)
    requires Tree(nodes) && keys.Keys == nodes.Keys && i in nodes && DistinctIds(ChildKeys(nodes, keys, i))
    requires KindOf(keys[i]).Dir?
    ensures Hashed(nodes, keys[i := Rehashed(keys[i], ChildKeys(nodes, keys, i))], i)
  {
    hide Tree, ChildKeys, SortedEntries, DistinctIds;
    NotOwnChild(nodes, i);
    SameChildKeysBut(nodes, keys, i, Rehashed(keys[i], ChildKeys(nodes, keys, i)), i);
  }

  lemma ChildrenRegistered(nodes: Nodes, keys: Keys, entities: set<EntityKey>, i: InodeId)
    requires Registered(keys, entities)
    ensures forall k :: k in ChildKeys(nodes, keys, i) ==> k in entities
  {
  }

  lemma ReadyDirectory(c: Columns, i: InodeId)
    requires Fit(c) && i in c.dirty
    ensures i in c.nodes && i in c.keys && c.nodes[i].kind.Dir? && KindOf(c.keys[i]).Dir? && Tree(c.nodes)
    ensures DistinctIds(ChildKeys(c.nodes, c.keys, i)) && ValidName(NameOf(c.keys[i]))
  {
    RowName(c, i);
    hide Tree, Named, ValidName;
    ChildKeysDistinct(c.nodes, c.keys, i);
  }

  lemma RowName(c: Columns, i: InodeId)
    requires Fit(c) && i in c.nodes
    ensures i in c.keys && ValidName(NameOf(c.keys[i]))
  {
    hide ValidName, PathsFit;
  }

  /** `process_dirty_inode` with `update_directory`. A file is never dirty. */
  method ProcessDirtyInode(t: Table, i: InodeId) returns (r: Result<(), PassError>)
    requires t.Valid() && t.keys.Keys == t.nodes.Keys && Closed(t.nodes, t.dirty)
    requires i in t.dirty && NoDirtyChild(t.nodes, t.dirty, i)
    modifies t`nodes, t`keys, t`paths, t`dirty, t`log, t`entities
    ensures r.Ok? && t.Valid() && t.nodes == old(t.nodes) && t.keys.Keys == t.nodes.Keys
    ensures t.dirty == old(t.dirty) - {i} && Closed(t.nodes, t.dirty)
    ensures old(Consistent(t.nodes, t.keys, t.dirty)) ==> Consistent(t.nodes, t.keys, t.dirty)
    ensures i in old(t.keys) && DistinctIds(ChildKeys(t.nodes, old(t.keys), i))
    ensures t.keys == old(t.keys)[i := Rehashed(old(t.keys)[i], ChildKeys(t.nodes, old(t.keys), i))]
    ensures Rebodied(t.nodes, old(t.keys), {i}, t.keys)
    ensures old(t.log) <= t.log && t.entities == old(t.entities) + {t.keys[i]}
  {
    hide Fit, Registered, Consistent, Tree, ChildKeys, SortedEntries, Closed, Hashed, CanUpdate, NoDirtyChild;
    hide MarksAfterUpdate, ValidName, Rebodied;
    ghost var was := t.Contents();
    ReadyDirectory(was, i);
    if i !in t.nodes { return Err(InodeNotFound(i)); }
    if t.nodes[i].kind.File? { return Err(DirtyFile(i)); }
    var children := ChildKeys(t.nodes, t.keys, i);
    var key := Rehashed(t.keys[i], children);
    ChildrenRegistered(t.nodes, t.keys, t.entities, i);
    var registered := t.RegisterEntity(key);
    if registered.Err? { return Err(StatementFailed); }
    FitTree(was);
    RehashedFits(t.nodes, t.keys, t.dirty, i, key, t.entities);
    ClearsOneMark(t.nodes, t.keys, t.dirty, i, key);
    RehashedIsHashed(t.nodes, t.keys, i);
    StaysClosed(t.nodes, t.dirty, i);
    var updated := t.UpdateInode(i, key);
    if updated.Err? { return Err(StatementFailed); }
    RehashedRebodies(t.nodes, was.keys, i);
    return Ok(());
  }

  lemma RehashedRebodies(nodes: Nodes, keys: Keys, i: InodeId)
    requires Tree(nodes) && keys.Keys == nodes.Keys && i in nodes && DistinctIds(ChildKeys(nodes, keys, i))
    ensures Rebodied(nodes, keys, {i}, keys[i := Rehashed(keys[i], ChildKeys(nodes, keys, i))])
  {
    hide Tree, SortedEntries, DistinctIds, ListsChildren, ChildKeys;
    var key := Rehashed(keys[i], ChildKeys(nodes, keys, i));
    NotOwnChild(nodes, i);
    SameChildKeysBut(nodes, keys, i, key, i);
    ListingListsChildren(nodes, keys[i := key], i);
  }

  lemma StaysClosed(nodes: Nodes, dirty: set<InodeId>, i: InodeId)
    requires Closed(nodes, dirty) && NoDirtyChild(nodes, dirty, i)
    ensures Closed(nodes, dirty - {i})
  {
  }

  /** The pass does not visit clean directories: one that is out of date stays so. */
  lemma PassKeepsStale(nodes: Nodes, before: Keys, dirty: set<InodeId>, after: Keys)
    requires Closed(nodes, dirty) && Snapshot(nodes, before, dirty, after) && Tracked(nodes, after, {})
    ensures Tracked(nodes, before, dirty)
  {
    hide Hashed, Rewritten, ChildKeys;
    forall p | p in nodes && nodes[p].kind.Dir? && p !in dirty ensures Hashed(nodes, before, p) {
      forall c | ChildOf(nodes, p, c) ensures before[c] == after[c] {
        assert c in dirty ==> MarkedAbove(nodes, dirty, c);
      }
      SameChildKeys(nodes, before, after, p);
      assert SameChildren(nodes, after, nodes, before, p);
      SameChildrenHashed(nodes, after, nodes, before, p);
    }
  }

  lemma RepairedExactly(nodes: Nodes, before: Keys, marked: set<InodeId>, after: Keys, was: Columns)
    requires Fit(was) && was.nodes == nodes && was.dirty == marked && Closed(nodes, marked)
    requires Snapshot(nodes, before, marked, after) && before.Keys == nodes.Keys && after.Keys == nodes.Keys
    ensures Consistent(nodes, after, {}) ==> Consistent(nodes, before, marked)
  {
    hide Closed, Snapshot, Tracked;
    if Consistent(nodes, after, {}) { PassKeepsStale(nodes, before, marked, after); }
  }

  /** A changed key below a marked directory changes that directory's key. */
  lemma ParentKeyChanges(n: Nodes, before: Keys, start: Keys, marked: set<InodeId>, after: Keys, p: InodeId, j: InodeId)
    requires before.Keys == n.Keys && UniqueIds(before) && Snapshot(n, start, marked, after) && p in n && p in marked
    requires Hashed(n, before, p) && j in n && ChildOf(n, p, j) && after[j] != before[j] && after[j].id == before[j].id
    ensures after[p] != before[p]
  {
    hide SortedEntries, DistinctIds;
    assert Rewritten(n, start, after, p);
    assert after[j] in ChildKeys(n, after, p) && after[j] !in ChildKeys(n, before, p);
    if after[p] == before[p] {
      SortedInjective(ChildKeys(n, after, p), ChildKeys(n, before, p));
    }
  }

  lemma ClosedAt(nodes: Nodes, dirty: set<InodeId>, i: InodeId)
    requires Closed(nodes, dirty) && i in dirty
    ensures MarkedAbove(nodes, dirty, i)
  {
  }

  /** A changed key under marks that reach the root changes the root's key. */
  lemma {:induction false} ChangeRises(n: Nodes, before: Keys, start: Keys, marked: set<InodeId>, after: Keys, j: InodeId)
    requires Tree(n) && before.Keys == n.Keys && UniqueIds(before) && Tracked(n, before, {})
    requires Snapshot(n, start, marked, after) && Closed(n, marked) && Directories(n, marked)
    requires forall q :: q in n ==> after[q].id == before[q].id
    requires j in n && MarkedAbove(n, marked, j) && after[j] != before[j]
    ensures after[RootInode] != before[RootInode]
    decreases Depth(n, j)
  {
    hide Tree, Snapshot, Hashed, Closed;
    if j != RootInode {
      DepthOfParent(n, j);
      var p := ParentOf(n, j);
      ClosedAt(n, marked, p);
      ParentKeyChanges(n, before, start, marked, after, p, j);
      ChangeRises(n, before, start, marked, after, p);
    }
  }

  function Batch(nodes: Nodes, dirty: set<InodeId>): set<InodeId> {
    set i | i in dirty && NoDirtyChild(nodes, dirty, i)
  }

  lemma BatchShrinks(nodes: Nodes, dirty: set<InodeId>, rest: set<InodeId>, i: InodeId)
    requires rest <= Batch(nodes, dirty) && i in rest
    ensures rest - {i} <= Batch(nodes, dirty - {i}) && NoDirtyChild(nodes, dirty, i) && i in dirty
  {
  }

  lemma BatchOfSome(c: Columns)
    requires Fit(c) && c.dirty != {}
    ensures Batch(c.nodes, c.dirty) != {}
  {
    var any :| any in c.dirty;
    assert Tree(c.nodes);
    DeepestDirty(c.nodes, c.dirty);
    var i :| i in c.dirty && NoDirtyChild(c.nodes, c.dirty, i);
    assert i in Batch(c.nodes, c.dirty);
  }

  function KeysOf(keys: Keys, inodes: set<InodeId>): set<EntityKey> {
    set i | i in inodes && i in keys :: keys[i]
  }

  lemma KeysOfMore(keys: Keys, all: set<InodeId>, dirty: set<InodeId>, i: InodeId, key: EntityKey)
    requires i in dirty && dirty <= all && i in keys
    ensures KeysOf(keys[i := key], all - (dirty - {i})) == KeysOf(keys, all - dirty) + {key}
  {
    var after := keys[i := key];
    assert after[i] == key;
    forall k | k in KeysOf(keys, all - dirty) ensures k in KeysOf(after, all - (dirty - {i})) {
      var j :| j in all - dirty && j in keys && keys[j] == k;
      assert after[j] == k;
    }
  }

  lemma KeysOfNone(keys: Keys, all: set<InodeId>)
    ensures KeysOf(keys, all - all) == {}
  {
  }

  lemma KeysOfTwo(was: Keys, now: Keys, all: set<InodeId>, dirty: set<InodeId>, dirty': set<InodeId>)
    requires dirty' <= dirty <= all && was.Keys == now.Keys
    requires forall i :: i in now && i !in dirty - dirty' ==> now[i] == was[i]
    ensures KeysOf(now, all - dirty') == KeysOf(was, all - dirty) + KeysOf(now, dirty - dirty')
  {
    forall k | k in KeysOf(was, all - dirty) ensures k in KeysOf(now, all - dirty') {
      var j :| j in all - dirty && j in was && was[j] == k;
      assert now[j] == k;
    }
  }

  /** The batch of one round. */
  method ProcessBatch(t: Table, batch: set<InodeId>, ghost before: Keys, ghost marked: set<InodeId>)
    returns (r: Result<(), PassError>)
    requires t.Valid() && t.keys.Keys == t.nodes.Keys && Closed(t.nodes, t.dirty)
    requires batch == Batch(t.nodes, t.dirty) && batch != {} && Passed(t.nodes, before, marked, t.keys, t.dirty)
    modifies t`nodes, t`keys, t`paths, t`dirty, t`log, t`entities
    ensures r.Ok? && t.Valid() && t.nodes == old(t.nodes) && t.keys.Keys == t.nodes.Keys
    ensures Closed(t.nodes, t.dirty) && Passed(t.nodes, before, marked, t.keys, t.dirty)
    ensures old(Consistent(t.nodes, t.keys, t.dirty)) ==> Consistent(t.nodes, t.keys, t.dirty)
    ensures |t.dirty| < |old(t.dirty)| && old(t.log) <= t.log
    ensures t.dirty <= old(t.dirty)
    ensures t.entities == old(t.entities) + KeysOf(t.keys, old(t.dirty) - t.dirty)
    ensures forall i :: i in t.keys && i !in old(t.dirty) - t.dirty ==> i in old(t.keys) && t.keys[i] == old(t.keys)[i]
  {
    hide KeysOf, Fit, Registered, Consistent, Tree, ChildKeys, SortedEntries, Passed, Batch, NoDirtyChild;
    hide DistinctIds, Closed, BlobsKnown, HandlesFit, Logged, ViewsOf, Rebodied;
    var rest := batch;
    KeysOfNone(t.keys, t.dirty);
    while rest != {}
      invariant t.Valid() && t.nodes == old(t.nodes) && t.keys.Keys == t.nodes.Keys && rest <= Batch(t.nodes, t.dirty)
      invariant Closed(t.nodes, t.dirty) && Passed(t.nodes, before, marked, t.keys, t.dirty)
      invariant old(Consistent(t.nodes, t.keys, t.dirty)) ==> Consistent(t.nodes, t.keys, t.dirty)
      invariant |t.dirty| + |batch| == |old(t.dirty)| + |rest|
      invariant old(t.log) <= t.log && t.dirty <= old(t.dirty)
      invariant t.entities == old(t.entities) + KeysOf(t.keys, old(t.dirty) - t.dirty)
      invariant forall i :: i in t.keys && i !in old(t.dirty) - t.dirty ==> i in old(t.keys) && t.keys[i] == old(t.keys)[i]
      decreases |rest|
    {
      var i :| i in rest;
      BatchShrinks(t.nodes, t.dirty, rest, i);
      ReadyDirectory(t.Contents(), i);
      ghost var keys, dirty := t.keys, t.dirty;
      var done := ProcessDirtyInode(t, i);
      if done.Err? { return done; }
      PassStep(t.nodes, before, marked, keys, dirty, i, t.keys[i]);
      KeysOfMore(keys, old(t.dirty), dirty, i, t.keys[i]);
      rest := rest - {i};
    }
    return Ok(());
  }

  /** `process_dirty_inodes`: no error, and only the dirty directories are rewritten. Every directory is up
      to date afterwards exactly when the marks named all that were not. */
  method ProcessDirtyInodes(t: Table) returns (r: Result<(), PassError>)
    requires t.Valid() && t.keys.Keys == t.nodes.Keys && Closed(t.nodes, t.dirty)
    modifies t`nodes, t`keys, t`paths, t`dirty, t`log, t`entities
    ensures r.Ok? && t.Valid() && t.nodes == old(t.nodes) && t.keys.Keys == t.nodes.Keys && Closed(t.nodes, t.dirty)
    ensures t.dirty == {} && (Consistent(t.nodes, t.keys, {}) <==> old(Consistent(t.nodes, t.keys, t.dirty)))
    ensures Snapshot(t.nodes, old(t.keys), old(t.dirty), t.keys)
    ensures Rebodied(t.nodes, old(t.keys), old(t.dirty), t.keys)
    ensures old(t.log) <= t.log && t.entities == old(t.entities) + KeysOf(t.keys, old(t.dirty))
  {
    hide KeysOf, Fit, Registered, Consistent, Tree, ChildKeys, SortedEntries, Passed, Batch, NoDirtyChild;
    hide Snapshot, DistinctIds, BlobsKnown, HandlesFit, Logged, ViewsOf, Rebodied;
    ghost var before, marked := t.keys, t.dirty;
    PassStarts(t.nodes, t.keys, t.dirty);
    KeysOfNone(t.keys, t.dirty);
    while true
      invariant t.Valid() && t.nodes == old(t.nodes) && t.keys.Keys == t.nodes.Keys
      invariant Closed(t.nodes, t.dirty) && Passed(t.nodes, before, marked, t.keys, t.dirty)
      invariant old(Consistent(t.nodes, t.keys, t.dirty)) ==> Consistent(t.nodes, t.keys, t.dirty)
      invariant old(t.log) <= t.log && t.dirty <= marked
      invariant t.entities == old(t.entities) + KeysOf(t.keys, marked - t.dirty)
      decreases |t.dirty|
    {
      var batch := Batch(t.nodes, t.dirty);
      if batch == {} {
        if t.dirty != {} {
          BatchOfSome(t.Contents());
          assert false;
        }
        break;
      }
      ghost var keys, dirty := t.keys, t.dirty;
      var done := ProcessBatch(t, batch, before, marked);
      if done.Err? { return done; }
      KeysOfTwo(keys, t.keys, marked, dirty, t.dirty);
    }
    PassEnds(t.nodes, before, marked, t.keys);
    SnapshotRebodies(t.nodes, before, marked, t.keys);
    RepairedExactly(t.nodes, before, marked, t.keys, old(t.Contents()));
    assert marked - t.dirty == marked;
    return Ok(());
  }
}
