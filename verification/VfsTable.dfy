/** The vfs table with its triggers, as methods that each statement runs
    (janus-vfs/migrations/202605201500_initial.sql 573-880, 1133-1207; janus-vfs/src/vfs/mod.rs). */
module VfsTable {
  import opened Wrappers
  import opened Trees
  import opened Marks
  import opened PathIndex
  import opened Entities
  import opened Merkle
  import opened TableSteps
  import opened ChangeLog
  import opened Statements

  datatype TableError =
    | PrimaryKey | ForeignKey | UniqueEntity | UniqueSlot | Immutable
    | BadName | BadParent | BadType | Loop | RootFixed | NoSuchRow | Pinned

  /** Every file entity's blob has a row. */
  ghost predicate BlobsKnown(entities: set<EntityKey>, blobs: set<nat>) {
    forall k :: k in entities && k.revision.FileRevision? ==> k.revision.blob in blobs
  }

  /** A directory's entries, or a file's blob, are there. */
  predicate RefsKnown(key: EntityKey, entities: set<EntityKey>, blobs: set<nat>) {
    if key.revision.FileRevision? then key.revision.blob in blobs else forall e :: e in EntriesOf(key) ==> e in entities
  }

  /** The entity is there, or it has a valid name and everything it refers to is there. */
  predicate Known(key: EntityKey, entities: set<EntityKey>, blobs: set<nat>) {
    key in entities || (ValidName(NameOf(key)) && RefsKnown(key, entities, blobs))
  }

  lemma NothingRegistered()
    ensures Registered(map[], {}) && BlobsKnown({}, {}) && ViewsOf(map[], map[], map[], {}) == map[]
  {
  }

  /** All that an accepted `INSERT` has to keep. */
  lemma InsertKept(base: ChangeLog.Views, c: Columns, kind: Kind, p: InodeId, key: EntityKey, entities: set<EntityKey>,
                   synced: set<EntityKey>, handles: map<nat, InodeId>, now: Columns)
    requires Fit(c) && CanInsert(c.nodes, c.keys, kind, p, key, entities) && Inserted(c, p, key, now)
    requires Registered(c.keys, entities) && Logged(base, ViewsOf(c.nodes, c.keys, c.paths, synced), c.log)
    requires HandlesFit(c.nodes, handles) && c.nodes.Keys <= now.nodes.Keys
    ensures Fit(now) && Registered(now.keys, entities) && HandlesFit(now.nodes, handles)
    ensures Logged(base, ViewsOf(now.nodes, now.keys, now.paths, synced), now.log)
    ensures c.keys.Keys == c.nodes.Keys && now.keys.Keys == now.nodes.Keys && now.log == c.log + {InodeOf(key.id)}
    ensures Closed(c.nodes, c.dirty) ==> Closed(now.nodes, now.dirty) && now.dirty == c.dirty + Upward(now.nodes, p)
    ensures Consistent(c.nodes, c.keys, c.dirty) ==> (Consistent(now.nodes, now.keys, now.dirty) <==> EntriesOf(key) == [])
  {
    hide Fit, CanInsert, Inserted, Registered, Closed, Upward, Consistent, Logged, ViewsOf, HandlesFit, EntriesOf;
    hide SameRow;
    InsertAllDone(c, kind, p, key, entities, now);
    RowsLogged(base, c, now, synced);
    HandlesStay(c.nodes, now.nodes, handles);
  }

  class Table {
    var nodes: Nodes
    var keys: Keys
    var paths: Paths
    var dirty: set<InodeId>
    var log: set<InodeId>
    var entities: set<EntityKey>
    var synced: set<EntityKey>
    var blobs: set<nat>
    var syncedBlobs: set<nat>
    var handles: map<nat, InodeId>
    /** What the inodes looked like when the transaction began. */
    ghost var base: Views

    ghost predicate Valid()
      reads this
    {
      Sound() && HandlesFit(nodes, handles) && BlobsKnown(entities, blobs) && syncedBlobs <= blobs
    }

    /** All but the foreign key of the open handles, which is checked when a statement ends. */
    ghost predicate Sound()
      reads this
    {
      Fit(Contents()) && Registered(keys, entities) && synced <= entities && Logged(base, Views(), log)
    }

    function Views(): ChangeLog.Views
      reads this
    {
      ViewsOf(nodes, keys, paths, synced)
    }

    function Contents(): Columns
      reads this
    {
      Columns(nodes, keys, paths, dirty, log)
    }

    constructor ()
      ensures Valid() && nodes == map[] && keys == map[] && dirty == {} && log == {} && entities == {} && synced == {}
      ensures handles == map[] && blobs == {} && syncedBlobs == {}
      ensures base == map[]
    {
      hide Fit, Registered, Logged, ViewsOf, HandlesFit, BlobsKnown;
      EmptyFit({});
      NothingRegistered();
      NothingLogged(ViewsOf(map[], map[], map[], {}));
      NoHandles(map[]);
      nodes, keys, paths, dirty, log := map[], map[], map[], {}, {};
      entities, synced, blobs, syncedBlobs, handles, base := {}, {}, {}, {}, map[], map[];
    }

    // ---------- triggers ----------

    /** `SET is_dirty = 1`, with the trigger that goes on to the parent. */
    method MarkDirty(i: InodeId)
      requires Tree(nodes) && i in nodes
      modifies this`dirty
      ensures dirty == Marked(nodes, old(dirty), i)
      decreases Depth(nodes, i)
    {
      if i !in dirty {
        dirty := dirty + {i};
        if i != RootInode {
          DepthOfParent(nodes, i);
          MarkDirty(nodes[i].parent.value);
        }
      }
    }

    /** `SET path = NULL`, with the trigger that computes the path and goes on to the children. That no
        other row shows the computed path, which `UNIQUE (path)` would refuse, holds at every write. */
    method ClearPath(i: InodeId, ghost before: Nodes)
      requires Tree(nodes) && Named(nodes) && Tree(before) && NoClash(before, nodes) && i in nodes
      requires Stale(before, nodes, paths)
      requires i != RootInode ==> Parented(nodes, i) && paths[ParentOf(nodes, i)] == Some(Path(nodes, ParentOf(nodes, i)))
      modifies this`paths, this`log
      ensures Covered(nodes, old(paths), paths, Subtree(nodes, i))
      ensures log == old(log) + Subtree(nodes, i)
      decreases Subtree(nodes, i), 1
    {
      hide Tree, Named, NoClash, Subtree, Path, Covered, Stale, Parented;
      PathIsFree(before, nodes, paths, i);
      SubtreeHasTop(nodes, i);
      PathUnfolds(nodes, i);
      StaleKeys(before, nodes, paths);
      CoveredHere(nodes, paths, i);
      CoveredStale(before, nodes, paths, paths[i := Some(Path(nodes, i))], {i});
      paths := paths[i := None];
      log := log + {i};
      var path := PathFrom(i == RootInode, nodes[i].parent == Some(RootInode),
                           if i != RootInode && nodes[i].parent != Some(RootInode) then paths[ParentOf(nodes, i)].value else "",
                           nodes[i].name);
      assert forall j :: j in paths && j != i ==> paths[j] != Some(path);
      paths := paths[i := Some(path)];
      assert paths == old(paths)[i := Some(Path(nodes, i))];
      ClearChildren(i, before, old(paths), old(log));
    }

    /** `SET path = NULL WHERE parent = ?` */
    method ClearChildren(i: InodeId, ghost before: Nodes, ghost was: Paths, ghost logged: set<InodeId>)
      requires Tree(nodes) && Named(nodes) && Tree(before) && NoClash(before, nodes) && i in nodes
      requires Stale(before, nodes, paths)
      requires Covered(nodes, was, paths, {i}) && log == logged + {i}
      modifies this`paths, this`log
      ensures Covered(nodes, was, paths, Subtree(nodes, i))
      ensures log == logged + Subtree(nodes, i)
      decreases Subtree(nodes, i), 0
    {
      hide Tree, Named, NoClash, Subtree, Children, Path, Covered, Stale, Gathered;
      var rest := Children(nodes, i);
      ghost var covered := {i};
      GatherStart(nodes, i);
      while rest != {}
        invariant Gathered(nodes, i, rest, covered)
        invariant Covered(nodes, was, paths, covered) && Stale(before, nodes, paths)
        invariant log == logged + covered
        decreases |rest|
      {
        var c :| c in rest;
        ghost var mid := paths;
        ParentIsDone(nodes, was, paths, covered, i, rest);
        GatherStep(nodes, i, rest, covered, c);
        ClearPath(c, before);
        CoveredUnion(nodes, was, mid, paths, covered, Subtree(nodes, c));
        CoveredStale(before, nodes, mid, paths, Subtree(nodes, c));
        covered := covered + Subtree(nodes, c);
        rest := rest - {c};
      }
      GatherAll(nodes, i, covered);
    }

    /** A deleted row, and `ON DELETE CASCADE` to its children. The trigger that marks a deleted row's
        parent finds the parent of a cascaded row already gone. */
    method Cascade(i: InodeId, ghost tree: Nodes)
      requires Tree(tree) && i in tree && Subtree(tree, i) <= nodes.Keys
      requires keys.Keys == nodes.Keys && paths.Keys == nodes.Keys
      requires forall j :: j in nodes ==> j in tree && nodes[j] == tree[j]
      modifies this`nodes, this`keys, this`paths, this`dirty, this`log
      ensures Remaining(old(Contents()), Contents(), Subtree(tree, i))
      decreases Subtree(tree, i)
    {
      hide Tree, Subtree, Gathered, Ahead, Children;
      ChildrenRemain(tree, nodes, i);
      GatherStart(tree, i);
      AheadStart(tree, i);
      ghost var before := nodes;
      WithoutOne(Contents(), i);
      nodes, keys, paths, dirty, log := nodes - {i}, keys - {i}, paths - {i}, dirty - {i}, log + {i};
      var rest := Children(nodes, i);
      ghost var covered := {i};
      while rest != {}
        invariant Gathered(tree, i, rest, covered) && Ahead(tree, rest, covered)
        invariant Remaining(old(Contents()), Contents(), covered)
        decreases |rest|
      {
        var c :| c in rest;
        ghost var was := Contents();
        GatherStep(tree, i, rest, covered, c);
        RestAreChildren(tree, i, rest, covered);
        AheadStep(tree, i, rest, covered, c);
        RemainingSubtree(tree, before, i, c, covered, rest);
        Cascade(c, tree);
        RemainingStep(old(Contents()), was, Contents(), covered, Subtree(tree, c));
        covered := covered + Subtree(tree, c);
        rest := rest - {c};
      }
      GatherAll(tree, i, covered);
    }

    // ---------- statements ----------

    /** `create_inode` */
    method InsertInode(kind: Kind, p: InodeId, key: EntityKey) returns (r: Result<InodeId, TableError>)
      requires Valid()
      modifies this`nodes, this`keys, this`paths, this`dirty, this`log
      ensures Valid()
      ensures r.Ok? <==> old(CanInsert(nodes, keys, kind, p, key, entities))
      ensures r.Err? ==> Contents() == old(Contents())
      ensures r.Ok? ==> r.value == InodeOf(key.id) && log == old(log) + {r.value}
      ensures r.Ok? ==> nodes == old(nodes)[r.value := NewInode(p, key)] && keys == old(keys)[r.value := key]
      ensures r.Ok? && old(Closed(nodes, dirty)) ==> Closed(nodes, dirty) && dirty == old(dirty) + Upward(nodes, p)
      ensures r.Ok? && old(Consistent(nodes, keys, dirty)) ==> (Consistent(nodes, keys, dirty) <==> EntriesOf(key) == [])
    {
      var i, name := InodeOf(key.id), NameOf(key);
      if i in nodes { return Err(PrimaryKey); }
      if IdTaken(keys, key.id) { return Err(UniqueEntity); }
      if p !in nodes || key !in entities { return Err(ForeignKey); }
      if !nodes[p].kind.Dir? { return Err(BadParent); }
      if KindOf(key) != kind { return Err(BadType); }
      if !ValidName(name) { return Err(BadName); }
      if SlotTaken(nodes, Some(p), name, i) { return Err(UniqueSlot); }
      AddInode(kind, p, key);
      return Ok(i);
    }

    /** The accepted `INSERT`, with its triggers. */
    method AddInode(kind: Kind, p: InodeId, key: EntityKey)
      requires Valid() && CanInsert(nodes, keys, kind, p, key, entities)
      modifies this`nodes, this`keys, this`paths, this`dirty, this`log
      ensures Valid() && log == old(log) + {InodeOf(key.id)}
      ensures nodes == old(nodes)[InodeOf(key.id) := NewInode(p, key)] && keys == old(keys)[InodeOf(key.id) := key]
      ensures old(Closed(nodes, dirty)) ==> Closed(nodes, dirty) && dirty == old(dirty) + Upward(nodes, p)
      ensures old(Consistent(nodes, keys, dirty)) ==> (Consistent(nodes, keys, dirty) <==> EntriesOf(key) == [])
    {
      hide CanInsert, Tree, Fit, Inserted, Upward, Closed, Registered, ViewsOf, BlobsKnown, Logged, Consistent;
      hide HandlesFit;
      hide EntriesOf;
      ghost var was := Contents();
      AddRow(kind, p, key);
      InsertKept(base, was, kind, p, key, entities, synced, handles, Contents());
    }

    /** The row with its triggers: the parent is marked, the path computed. */
    method AddRow(kind: Kind, p: InodeId, key: EntityKey)
      requires Fit(Contents()) && CanInsert(nodes, keys, kind, p, key, entities)
      modifies this`nodes, this`keys, this`paths, this`dirty, this`log
      ensures Inserted(old(Contents()), p, key, Contents()) && nodes == old(nodes)[InodeOf(key.id) := NewInode(p, key)]
      ensures keys == old(keys)[InodeOf(key.id) := key]
    {
      hide CanInsert, Fit, Tree, Named, NoClash, Stale, Path, Covered, Marked, Subtree, Parented;
      ghost var was := Contents();
      var i := InodeOf(key.id);
      InsertReady(was, kind, p, key, entities);
      nodes, keys, paths, log := nodes[i := NewInode(p, key)], keys[i := key], paths[i := None], log + {i};
      assert Contents() == WithRow(was, p, key);
      MarkDirty(p);
      ClearPath(i, was.nodes);
    }

    /** `update_inode`: the entity's name and key go into the row, and its mark is cleared. */
    method UpdateInode(i: InodeId, key: EntityKey) returns (r: Result<(), TableError>)
      requires Valid() && keys.Keys == nodes.Keys
      modifies this`nodes, this`keys, this`paths, this`dirty, this`log
      ensures Valid() && keys.Keys == nodes.Keys
      ensures r.Ok? <==> old(CanUpdate(nodes, keys, i, key, entities))
      ensures r.Err? ==> Contents() == old(Contents())
      ensures r.Ok? ==> nodes == Renamed(old(nodes), i, NameOf(key)) && keys == old(keys)[i := key]
      ensures r.Ok? ==> log == old(log) + TouchedByUpdate(old(nodes), old(keys), i, key)
      ensures r.Ok? && old(Closed(nodes, dirty)) ==> dirty == MarksAfterUpdate(old(nodes), old(keys), old(dirty), i, key)
      ensures r.Ok? && old(Consistent(nodes, keys, dirty)) ==>
        (Consistent(nodes, keys, dirty)
         <==> NoDirtyChild(old(nodes), old(dirty), i) && (nodes[i].kind.Dir? ==> Hashed(nodes, keys, i)))
    {
      if i !in nodes { return Err(NoSuchRow); }
      if keys[i].id != key.id { return Err(Immutable); }
      if KindOf(key) != nodes[i].kind { return Err(BadType); }
      if key !in entities { return Err(ForeignKey); }
      if !ValidName(NameOf(key)) { return Err(BadName); }
      if SlotTaken(nodes, nodes[i].parent, NameOf(key), i) { return Err(UniqueSlot); }
      ApplyUpdate(i, key);
      return Ok(());
    }

    /** The accepted `UPDATE`, with its triggers. */
    method ApplyUpdate(i: InodeId, key: EntityKey)
      requires Valid() && keys.Keys == nodes.Keys && CanUpdate(nodes, keys, i, key, entities)
      modifies this`nodes, this`keys, this`paths, this`dirty, this`log
      ensures Valid() && keys.Keys == nodes.Keys
      ensures nodes == Renamed(old(nodes), i, NameOf(key)) && keys == old(keys)[i := key]
      ensures log == old(log) + TouchedByUpdate(old(nodes), old(keys), i, key)
      ensures old(Closed(nodes, dirty)) ==> dirty == MarksAfterUpdate(old(nodes), old(keys), old(dirty), i, key)
      ensures old(Consistent(nodes, keys, dirty)) ==>
        (Consistent(nodes, keys, dirty)
         <==> NoDirtyChild(old(nodes), old(dirty), i) && (nodes[i].kind.Dir? ==> Hashed(nodes, keys, i)))
    {
      hide CanUpdate, Fit, PathsFit, Shaped, Directories, Tree, Named, NoClash, Stale, Path, Covered, Marked;
      hide Subtree, Closed;
      hide Registered, ViewsOf, BlobsKnown, Logged, Tracked, Consistent, Hashed, NoDirtyChild, MarksAfterUpdate;
      hide HandlesFit;
      hide TouchedByUpdate;
      ghost var was := Contents();
      UpdateReady(was, i, key, entities);
      UpdateNameKept(was, i, key);
      var isNew, isRenamed := key != keys[i], NameOf(key) != nodes[i].name;
      nodes, keys, dirty := Renamed(nodes, i, NameOf(key)), keys[i := key], dirty - {i};
      if isNew {
        log := log + {i};
        if i != RootInode { MarkDirty(ParentOf(nodes, i)); }
      }
      if isRenamed { ClearPath(i, was.nodes); }
      assert Updated(was, i, key, Contents());
      hide Updated;
      UpdateAllDone(was, i, key, entities, Contents());
      RowsLogged(base, was, Contents(), synced);
      HandlesStay(was.nodes, nodes, handles);
    }

    /** `mv` and `move_inode` */
    method MoveInode(i: InodeId, p: InodeId) returns (r: Result<(), TableError>)
      requires Valid() && keys.Keys == nodes.Keys
      modifies this`nodes, this`paths, this`dirty, this`log
      ensures Valid() && keys.Keys == nodes.Keys
      ensures r.Ok? <==> CanMove(old(nodes), i, p)
      ensures r.Err? || old(nodes)[i].parent == Some(p) ==> Contents() == old(Contents())
      ensures r.Ok? ==> nodes == Moved(old(nodes), i, p)
      ensures r.Ok? && old(nodes)[i].parent != Some(p) ==> log == old(log) + Subtree(old(nodes), i)
      ensures r.Ok? && old(Closed(nodes, dirty)) && old(nodes)[i].parent.Some? && old(nodes)[i].parent != Some(p) ==>
        dirty == old(dirty) + Upward(nodes, p) + Upward(nodes, ParentOf(old(nodes), i))
      ensures old(Consistent(nodes, keys, dirty)) ==> Consistent(nodes, keys, dirty)
    {
      hide Fit, Tree, Subtree, Closed, Registered, ViewsOf, BlobsKnown, Logged, Consistent, Upward, HandlesFit, Below;
      FitTree(Contents());
      if i == RootInode { return Err(RootFixed); }
      if i !in nodes { return Err(NoSuchRow); }
      if p !in nodes { return Err(ForeignKey); }
      if !nodes[p].kind.Dir? { return Err(BadParent); }
      var loop := IsBelow(p, i);
      if loop { return Err(Loop); }
      if SlotTaken(nodes, Some(p), nodes[i].name, i) { return Err(UniqueSlot); }
      if nodes[i].parent == Some(p) {
        assert Moved(nodes, i, p) == nodes;
        return Ok(());
      }
      ApplyMove(i, p);
      return Ok(());
    }

    /** Membership in `vfs_inode_ancestors`, the inode itself included. */
    method IsBelow(i: InodeId, a: InodeId) returns (r: bool)
      requires Tree(nodes) && i in nodes
      ensures r <==> Below(nodes, i, a)
    {
      var at := i;
      while at != a && at != RootInode
        invariant at in nodes && (Below(nodes, i, a) <==> Below(nodes, at, a))
        decreases Depth(nodes, at)
      {
        DepthOfParent(nodes, at);
        BelowStep(nodes, at, a);
        at := nodes[at].parent.value;
      }
      BelowSelf(nodes, at);
      BelowRoot(nodes, a);
      return at == a;
    }

    /** The accepted move to another parent, with its triggers. */
    method ApplyMove(i: InodeId, p: InodeId)
      requires Valid() && keys.Keys == nodes.Keys && CanMove(nodes, i, p) && nodes[i].parent != Some(p)
      modifies this`nodes, this`paths, this`dirty, this`log
      ensures Valid() && keys.Keys == nodes.Keys
      ensures nodes == Moved(old(nodes), i, p) && log == old(log) + Subtree(old(nodes), i)
      ensures old(Closed(nodes, dirty)) && old(nodes)[i].parent.Some? ==>
        dirty == old(dirty) + Upward(nodes, p) + Upward(nodes, ParentOf(old(nodes), i))
      ensures old(Consistent(nodes, keys, dirty)) ==> Consistent(nodes, keys, dirty)
    {
      hide CanMove, Fit, PathsFit, Shaped, Directories, Tree, Named, NoClash, Stale, Path, Covered, Marked;
      hide Subtree, Closed;
      hide Registered, ViewsOf, BlobsKnown, Logged, Tracked, Consistent, Upward, HandlesFit;
      ghost var was := Contents();
      MoveReady(was, i, p);
      var q := nodes[i].parent.value;
      nodes, log := Moved(nodes, i, p), log + {i};
      MarkDirty(p);
      MarkDirty(q);
      ClearPath(i, was.nodes);
      assert MovedTo(was, i, p, Contents());
      hide MovedTo;
      MoveAllDone(was, i, p, Contents());
      RowsLogged(base, was, Contents(), synced);
      HandlesStay(was.nodes, nodes, handles);
    }

    /** `delete` and `delete_inode`: an inode with an open write handle pins itself and its ancestors;
        then nothing is deleted. */
    method DeleteInode(i: InodeId) returns (r: Result<(), TableError>)
      requires Valid() && keys.Keys == nodes.Keys
      modifies this`nodes, this`keys, this`paths, this`dirty, this`log
      ensures Valid() && keys.Keys == nodes.Keys
      ensures r.Ok? <==> i != RootInode && forall h :: h in handles ==> handles[h] !in Subtree(old(nodes), i)
      ensures r.Err? ==> Contents() == old(Contents())
      ensures r.Ok? ==> nodes == old(nodes) - Subtree(old(nodes), i) && keys == old(keys) - Subtree(old(nodes), i)
      ensures r.Ok? && i in old(nodes) ==> log == old(log) + Subtree(old(nodes), i)
      ensures i !in old(nodes) ==> Contents() == old(Contents())
      ensures r.Ok? && i in old(nodes) && old(Closed(nodes, dirty)) && old(nodes)[i].parent.Some? ==>
        dirty == old(dirty) - Subtree(old(nodes), i) + Upward(nodes, ParentOf(old(nodes), i))
      ensures old(Consistent(nodes, keys, dirty)) ==> Consistent(nodes, keys, dirty)
    {
      hide Fit, Tree, Subtree, Closed, Registered, ViewsOf, BlobsKnown, Logged, Consistent, Upward, HandlesFit;
      if i == RootInode { return Err(RootFixed); }
      if i !in nodes {
        FitTree(Contents());
        NothingBelow(nodes, keys, i);
        assert forall h :: h in handles ==> handles[h] !in Subtree(nodes, i);
        return Ok(());
      }
      var was := Contents();
      DeleteRow(i);
      HandlesAndSubtree(was.nodes, nodes, i, handles);
      if !HandlesFit(nodes, handles) {
        nodes, keys, paths, dirty, log := was.nodes, was.keys, was.paths, was.dirty, was.log;
        return Err(Pinned);
      }
      return Ok(());
    }

    /** One deleted row with all that goes with it. */
    method DeleteRow(i: InodeId)
      requires Sound() && keys.Keys == nodes.Keys && i in nodes && i != RootInode
      modifies this`nodes, this`keys, this`paths, this`dirty, this`log
      ensures Sound() && keys.Keys == nodes.Keys
      ensures nodes == old(nodes) - Subtree(old(nodes), i) && keys == old(keys) - Subtree(old(nodes), i)
      ensures log == old(log) + Subtree(old(nodes), i)
      ensures old(Closed(nodes, dirty)) && old(nodes)[i].parent.Some? ==>
        dirty == old(dirty) - Subtree(old(nodes), i) + Upward(nodes, ParentOf(old(nodes), i))
      ensures old(Consistent(nodes, keys, dirty)) ==> Consistent(nodes, keys, dirty)
    {
      hide Fit, Tree, Marked, Subtree, Closed, Registered, ViewsOf, BlobsKnown, Logged, Consistent, Upward;
      ghost var was := Contents();
      DeleteReady(was, i);
      var parent := nodes[i].parent.value;
      Cascade(i, nodes);
      assert Contents() == Without(was, Subtree(was.nodes, i));
      MarkDirty(parent);
      assert Deleted(was, i, Contents());
      hide Deleted;
      DeleteAllDone(was, i, Contents(), entities);
      RowsLogged(base, was, Contents(), synced);
    }

    /** `DELETE FROM vfs` */
    method DeleteAll() returns (r: Result<(), TableError>)
      requires Valid()
      modifies this`nodes, this`keys, this`paths, this`dirty, this`log
      ensures Valid()
      ensures r.Ok? <==> handles == map[]
      ensures r.Err? ==> Contents() == old(Contents())
      ensures r.Ok? ==> Contents() == Columns(map[], map[], map[], {}, old(log) + old(nodes).Keys)
    {
      hide Fit, Registered, ViewsOf, BlobsKnown, Logged, HandlesFit;
      var saved := Contents();
      DeleteRows();
      if handles != map[] {
        nodes, keys, paths, dirty, log := saved.nodes, saved.keys, saved.paths, saved.dirty, saved.log;
        return Err(Pinned);
      }
      NoHandles(nodes);
      return Ok(());
    }

    /** Row after row, each with what the cascade takes along. */
    method DeleteRows()
      requires Sound()
      modifies this`nodes, this`keys, this`paths, this`dirty, this`log
      ensures Sound() && Contents() == Columns(map[], map[], map[], {}, old(log) + old(nodes).Keys)
    {
      hide Fit, Registered, ViewsOf, BlobsKnown, Logged;
      ghost var was := Contents();
      while nodes != map[]
        invariant Sound() && nodes.Keys <= was.nodes.Keys && log == was.log + (was.nodes.Keys - nodes.Keys)
        decreases |nodes|
      {
        DeleteSome();
      }
      FitTree(Contents());
      NoRootNoRows(Contents());
      assert was.log + (was.nodes.Keys - nodes.Keys) == was.log + was.nodes.Keys;
    }

    method DeleteSome()
      requires Sound() && nodes != map[]
      modifies this`nodes, this`keys, this`paths, this`dirty, this`log
      ensures Sound() && nodes.Keys < old(nodes).Keys && log == old(log) + (old(nodes).Keys - nodes.Keys)
      ensures |nodes| < |old(nodes)|
    {
      hide Fit, Tree, Subtree, Closed, Registered, ViewsOf, BlobsKnown, Logged, Consistent, Upward;
      FitTree(Contents());
      ghost var before := nodes;
      var i :| i in nodes;
      if i == RootInode {
        DeleteRoot();
      } else {
        SubtreeHasTop(nodes, i);
        DeleteRow(i);
        FewerRows(before, i);
      }
    }

    /** The root's row is met: the cascade takes the whole table. */
    method DeleteRoot()
      requires Sound() && RootInode in nodes
      modifies this`nodes, this`keys, this`paths, this`dirty, this`log
      ensures Sound() && Contents() == Columns(map[], map[], map[], {}, old(log) + old(nodes).Keys)
    {
      hide Fit, Tree, Subtree, Registered, ViewsOf, BlobsKnown, Logged;
      ghost var was := Contents();
      FitTree(was);
      WholeTree(was);
      Cascade(RootInode, nodes);
      assert Contents() == Columns(map[], map[], map[], {}, was.log + was.nodes.Keys);
      EmptyFit(log);
      RegisteredFewer(was.keys, was.keys.Keys, entities);
      assert was.keys - was.keys.Keys == map[];
      RowsLogged(base, was, Contents(), synced);
    }

    /** The first statement of the rebuild in `set_config`: the root's row. */
    method InsertRoot(key: EntityKey) returns (r: Result<(), TableError>)
      requires Valid()
      modifies this`nodes, this`keys, this`paths, this`dirty, this`log
      ensures Valid()
      ensures r.Ok? <==> RootInode !in old(nodes) && key in entities && KindOf(key).Dir? && ValidName(NameOf(key))
      ensures r.Err? ==> Contents() == old(Contents())
      ensures r.Ok? ==> nodes == map[RootInode := RootRow(key)] && keys == map[RootInode := key]
      ensures r.Ok? ==> dirty == {} && log == old(log) + {RootInode}
    {
      hide Fit, Tree, Named, Keyed, NoClash, Stale, Covered, Subtree, Registered, ViewsOf, BlobsKnown, Logged;
      hide HandlesFit;
      hide Path, ValidName;
      if RootInode in nodes { return Err(PrimaryKey); }
      if key !in entities { return Err(ForeignKey); }
      if !KindOf(key).Dir? { return Err(BadType); }
      if !ValidName(NameOf(key)) { return Err(BadName); }
      ghost var was := Contents();
      NoRootNoRows(was);
      RootOnlyTree(key);
      nodes, keys, paths := map[RootInode := RootRow(key)], map[RootInode := key], map[RootInode := None];
      log := log + {RootInode};
      ClearPath(RootInode, nodes);
      RootOnlyFit(key, paths, log);
      RegisteredOne(was.keys, entities, key);
      assert paths.Keys == nodes.Keys by { CoveredKeys(nodes, map[RootInode := None], paths, Subtree(nodes, RootInode)); }
      RowsLogged(base, was, Contents(), synced);
      HandlesStay(was.nodes, nodes, handles);
      return Ok(());
    }

    // ---------- entities, handles and transactions ----------

    /** `register_entity` of a local entity: an unknown one is inserted with its references, which must exist. */
    method RegisterEntity(key: EntityKey) returns (r: Result<(), TableError>)
      requires Valid()
      modifies this`entities
      ensures Valid()
      ensures r.Ok? <==> Known(key, old(entities), blobs)
      ensures entities == if r.Ok? then old(entities) + {key} else old(entities)
    {
      hide Fit, Logged, ViewsOf, HandlesFit;
      if key in entities {
        assert entities + {key} == entities;
        return Ok(());
      }
      if !ValidName(NameOf(key)) { return Err(BadName); }
      if key.revision.FileRevision? && key.revision.blob !in blobs { return Err(ForeignKey); }
      if exists e :: e in EntriesOf(key) && e !in entities { return Err(ForeignKey); }
      entities := entities + {key};
      return Ok(());
    }

    /** `register_blob` of a local blob: a new row, or the one that is there. */
    method RegisterBlob(blob: nat)
      requires Valid()
      modifies this`blobs
      ensures Valid() && blobs == old(blobs) + {blob}
    {
      hide Fit, Registered, Logged, ViewsOf, HandlesFit;
      blobs := blobs + {blob};
    }

    /** `register_blob` of a remote blob: its row must not be synced yet. */
    method RegisterRemoteBlob(blob: nat) returns (r: Result<(), TableError>)
      requires Valid()
      modifies this`blobs, this`syncedBlobs
      ensures Valid()
      ensures r.Ok? <==> blob !in old(syncedBlobs)
      ensures blobs == if r.Ok? then old(blobs) + {blob} else old(blobs)
      ensures syncedBlobs == if r.Ok? then old(syncedBlobs) + {blob} else old(syncedBlobs)
    {
      hide Fit, Registered, Logged, ViewsOf, HandlesFit;
      if blob in syncedBlobs { return Err(Immutable); }
      blobs, syncedBlobs := blobs + {blob}, syncedBlobs + {blob};
      return Ok(());
    }

    /** The entity's L->S transition, whose trigger logs every inode that shows the entity. A synced entity
        stays as it is. */
    method MarkEntitySynced(key: EntityKey) returns (r: Result<(), TableError>)
      requires Valid()
      modifies this`synced, this`log
      ensures Valid()
      ensures r.Ok? <==> key in entities
      ensures r.Err? || key in old(synced) ==> synced == old(synced) && log == old(log)
      ensures r.Ok? && key !in old(synced) ==> synced == old(synced) + {key} && log == old(log) + Showing(keys, key)
    {
      hide Fit, Registered, BlobsKnown, Logged, ViewsOf;
      if key !in entities { return Err(NoSuchRow); }
      if key in synced { return Ok(()); }
      SyncLogged(base, Contents(), synced, key);
      FitAnyLog(Contents(), log + Showing(keys, key));
      synced := synced + {key};
      log := log + Showing(keys, key);
      return Ok(());
    }

    /** `SELECT inode_id FROM vfs WHERE path = ?` */
    method FindPath(path: string) returns (r: Option<InodeId>)
      requires Valid()
      ensures PathAnswer(Views(), path, r)
    {
      hide Fit, Registered, BlobsKnown, Logged;
      FitTree(Contents());
      if i :| i in paths && paths[i] == Some(path) { return Some(i); }
      return None;
    }

    /** `create_fh` */
    method OpenHandle(h: nat, i: InodeId) returns (r: Result<(), TableError>)
      requires Valid()
      modifies this`handles
      ensures Valid()
      ensures r.Ok? <==> h !in old(handles) && i in nodes
      ensures handles == if r.Ok? then old(handles)[h := i] else old(handles)
    {
      hide Fit, Registered, BlobsKnown, Logged, ViewsOf;
      if h in handles { return Err(PrimaryKey); }
      if i !in nodes { return Err(ForeignKey); }
      handles := handles[h := i];
      return Ok(());
    }

    /** `delete_fh` */
    method CloseHandle(h: nat)
      requires Valid()
      modifies this`handles
      ensures Valid() && handles == old(handles) - {h}
    {
      hide Fit, Registered, BlobsKnown, Logged, ViewsOf;
      handles := handles - {h};
    }

    /** `clear_changelog`, as the transaction commits: the next one starts from here. */
    method ClearLog()
      requires Valid()
      modifies this`log, this`base
      ensures Valid() && log == {} && base == Views()
    {
      hide Fit, Registered, BlobsKnown, Logged, ViewsOf;
      NothingLogged(Views());
      FitAnyLog(Contents(), {});
      log, base := {}, Views();
    }
  }
}
