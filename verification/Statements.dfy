/** The vfs table's columns as values: what one statement with its triggers leaves in each column, and
    that the table stays well formed (janus-vfs/migrations/202605201500_initial.sql, vfs table). */
module Statements {
  import opened Wrappers
  import opened Trees
  import opened Marks
  import opened PathIndex
  import opened Entities
  import opened Merkle
  import opened TableSteps
  import opened ChangeLog

  datatype Columns = Columns(nodes: Nodes, keys: Keys, paths: Paths, dirty: set<InodeId>, log: set<InodeId>)

  ghost predicate Registered(keys: Keys, entities: set<EntityKey>) {
    && (forall i :: i in keys ==> keys[i] in entities)
    && (forall k, e :: k in entities && e in EntriesOf(k) ==> e in entities)
    && (forall k :: k in entities ==> ValidName(NameOf(k)))
  }

  ghost predicate PathsFit(nodes: Nodes, paths: Paths) {
    paths.Keys == nodes.Keys && (nodes != map[] ==> Tree(nodes) && PathsRight(nodes, paths))
  }

  lemma PathIsFree(before: Nodes, nodes: Nodes, paths: Paths, i: InodeId)
    requires Tree(before) && Tree(nodes) && Named(nodes) && NoClash(before, nodes)
    requires Stale(before, nodes, paths) && i in nodes
    ensures forall j :: j in paths && j != i ==> paths[j] != Some(Path(nodes, i))
  {
    forall j | j in paths && j != i ensures paths[j] != Some(Path(nodes, i)) {
      PathInjective(nodes, i, j);
    }
  }

  lemma CoveredUnion(nodes: Nodes, was: Paths, mid: Paths, now: Paths, covered: set<InodeId>, more: set<InodeId>)
    requires Tree(nodes) && Covered(nodes, was, mid, covered) && Covered(nodes, mid, now, more)
    ensures Covered(nodes, was, now, covered + more)
  {
    hide Tree, Path;
  }

  lemma CoveredStale(before: Nodes, nodes: Nodes, was: Paths, now: Paths, covered: set<InodeId>)
    requires Tree(before) && Tree(nodes) && Covered(nodes, was, now, covered) && Stale(before, nodes, was)
    ensures Stale(before, nodes, now)
  {
    hide Tree, Path;
  }

  lemma StaleKeys(before: Nodes, nodes: Nodes, paths: Paths)
    requires Tree(before) && Tree(nodes) && Stale(before, nodes, paths)
    ensures paths.Keys == nodes.Keys
  {
  }

  lemma CoveredHere(nodes: Nodes, was: Paths, i: InodeId)
    requires Tree(nodes) && was.Keys == nodes.Keys && i in nodes
    ensures Covered(nodes, was, was[i := Some(Path(nodes, i))], {i})
  {
    hide Tree, Path;
  }

  lemma PathUnfolds(nodes: Nodes, i: InodeId)
    requires Tree(nodes) && i in nodes
    ensures i == RootInode ==> Path(nodes, i) == "/"
    ensures i != RootInode ==> Parented(nodes, i) && nodes[i].parent.Some?
    ensures i != RootInode ==>
              Path(nodes, i) == PathFrom(false, ParentOf(nodes, i) == RootInode, Path(nodes, ParentOf(nodes, i)), nodes[i].name)
  {
    assert Parented(nodes, i);
  }

  ghost function Without(c: Columns, gone: set<InodeId>): Columns {
    Columns(c.nodes - gone, c.keys - gone, c.paths - gone, c.dirty - gone, c.log + gone)
  }

  lemma WithoutUnion(c: Columns, a: set<InodeId>, b: set<InodeId>)
    ensures Without(Without(c, a), b) == Without(c, a + b)
  {
    assert c.nodes - a - b == c.nodes - (a + b);
    assert c.keys - a - b == c.keys - (a + b);
    assert c.paths - a - b == c.paths - (a + b);
  }

  /** The rows still there while a cascade runs through `whole`: all of them but `covered`. */
  ghost predicate Remaining(whole: Columns, now: Columns, covered: set<InodeId>) {
    now == Without(whole, covered) && whole.keys.Keys == whole.nodes.Keys && whole.paths.Keys == whole.nodes.Keys
  }

  lemma WithoutOne(c: Columns, i: InodeId)
    ensures Without(c, {i}) == Columns(c.nodes - {i}, c.keys - {i}, c.paths - {i}, c.dirty - {i}, c.log + {i})
  {
  }

  lemma RemainingStep(whole: Columns, was: Columns, now: Columns, covered: set<InodeId>, more: set<InodeId>)
    requires Remaining(whole, was, covered) && Remaining(was, now, more)
    ensures Remaining(whole, now, covered + more)
  {
    WithoutUnion(whole, covered, more);
  }

  lemma RemainingSubtree(tree: Nodes, nodes: Nodes, i: InodeId, c: InodeId, covered: set<InodeId>, rest: set<InodeId>)
    requires Subtree(tree, i) <= nodes.Keys && Subtree(tree, c) <= Subtree(tree, i)
    requires Ahead(tree, rest, covered) && c in rest
    ensures Subtree(tree, c) <= (nodes - covered).Keys
  {
  }

  lemma ChildrenRemain(tree: Nodes, nodes: Nodes, i: InodeId)
    requires Tree(tree) && i in tree && Subtree(tree, i) <= nodes.Keys
    requires forall j :: j in nodes ==> j in tree && nodes[j] == tree[j]
    ensures Children(nodes - {i}, i) == Children(tree, i)
  {
    hide Tree, Subtree;
    forall c | c in Children(tree, i) ensures c in Children(nodes - {i}, i) {
      ChildInSubtree(tree, i, c);
    }
  }

  lemma ChildInSubtree(tree: Nodes, i: InodeId, c: InodeId)
    requires Tree(tree) && i in tree && c in Children(tree, i)
    ensures c in Subtree(tree, i) && c != i
  {
    BelowSelf(tree, c);
    ChildSubtreeSmaller(tree, i, c);
    BelowSelf(tree, i);
  }

  predicate SameRow(a: Columns, b: Columns, i: InodeId) {
    && (i in a.nodes <==> i in b.nodes) && (i in a.keys <==> i in b.keys) && (i in a.paths <==> i in b.paths)
    && (i in a.nodes && i in b.nodes ==> a.nodes[i].parent == b.nodes[i].parent)
    && (i in a.keys && i in b.keys ==> a.keys[i] == b.keys[i])
    && (i in a.paths && i in b.paths ==> a.paths[i] == b.paths[i])
  }

  lemma RowsLogged(base: Views, was: Columns, now: Columns, synced: set<EntityKey>)
    requires Logged(base, ViewsOf(was.nodes, was.keys, was.paths, synced), was.log) && was.log <= now.log
    requires forall i :: i !in now.log ==> SameRow(was, now, i)
    ensures Logged(base, ViewsOf(now.nodes, now.keys, now.paths, synced), now.log)
  {
    var a, b := ViewsOf(was.nodes, was.keys, was.paths, synced), ViewsOf(now.nodes, now.keys, now.paths, synced);
    forall i | i !in now.log ensures SameView(a, b, i) {
      assert SameRow(was, now, i);
    }
    LoggedStep(base, a, was.log, b, now.log);
  }

  /** The paths after an insert, whatever the trigger saw on the way. */
  lemma InsertPaths(before: Nodes, i: InodeId, n: Inode, was: Paths)
    requires Tree(before) && i !in before && n.parent.Some? && n.parent.value in before
    requires before[n.parent.value].kind == Dir
    requires Named(before[i := n]) && was.Keys == before.Keys && PathsRight(before, was)
    ensures Tree(before[i := n]) && Subtree(before[i := n], i) == {i}
    ensures NoClash(before, before[i := n]) && Stale(before, before[i := n], was[i := None])
    ensures was[n.parent.value] == Some(Path(before[i := n], n.parent.value)) && n.parent.value != i
  {
    var after := before[i := n];
    InsertKeepsTree(before, i, n);
    InsertNeverClashes(before, i, n);
    SubtreeStep(after, i);
    assert Children(after, i) == {} by {
      forall c ensures !ChildOf(after, i, c) {
        if c in before { assert Parented(before, c); }
      }
    }
    assert Subtree(after, i) == {i};
    hide Tree, Path, NoClash, Named;
  }

  lemma InsertPathsDone(before: Nodes, i: InodeId, n: Inode, was: Paths, now: Paths)
    requires Tree(before) && i !in before && Tree(before[i := n]) && Named(before[i := n])
    requires was.Keys == before.Keys && PathsRight(before, was) && Covered(before[i := n], was[i := None], now, {i})
    ensures PathsFit(before[i := n], now) && now.Keys == before[i := n].Keys
    ensures forall j :: j in before ==> now[j] == was[j]
  {
    InsertNeverClashes(before, i, n);
    hide Tree, Path, NoClash, Named;
  }

  lemma InsertMarked(nodes: Nodes, dirty: set<InodeId>, i: InodeId, n: Inode)
    requires Tree(nodes) && i !in nodes && n.parent.Some? && n.parent.value in nodes
    requires nodes[n.parent.value].kind == Dir
    requires Directories(nodes, dirty)
    ensures Tree(nodes[i := n])
    ensures Directories(nodes[i := n], Marked(nodes[i := n], dirty, n.parent.value))
    ensures Closed(nodes, dirty) ==> Closed(nodes[i := n], dirty + Upward(nodes[i := n], n.parent.value))
    ensures Closed(nodes, dirty) ==>
      Marked(nodes[i := n], dirty, n.parent.value) == dirty + Upward(nodes[i := n], n.parent.value)
  {
    var after, p := nodes[i := n], n.parent.value;
    InsertKeepsTree(nodes, i, n);
    MarkedDirectories(after, dirty, p);
    if Closed(nodes, dirty) {
      InsertMarks(nodes, dirty, i, n);
      MarkedIsUpward(after, dirty, p);
    }
  }

  ghost predicate Fit(c: Columns) {
    Shaped(c.nodes, c.keys) && PathsFit(c.nodes, c.paths) && Directories(c.nodes, c.dirty)
  }

  /** The columns when the row is in and the triggers have not run yet. */
  function WithRow(c: Columns, p: InodeId, key: EntityKey): Columns {
    var i := InodeOf(key.id);
    Columns(c.nodes[i := NewInode(p, key)], c.keys[i := key], c.paths[i := None], c.dirty, c.log + {i})
  }

  lemma InsertReady(c: Columns, kind: Kind, p: InodeId, key: EntityKey, entities: set<EntityKey>)
    requires Fit(c) && CanInsert(c.nodes, c.keys, kind, p, key, entities)
    ensures var i, now := InodeOf(key.id), WithRow(c, p, key);
            && Tree(c.nodes) && Tree(now.nodes) && Named(now.nodes) && p in now.nodes && i in now.nodes && i != RootInode
            && NoClash(c.nodes, now.nodes) && Stale(c.nodes, now.nodes, now.paths)
            && Parented(now.nodes, i) && ParentOf(now.nodes, i) == p
            && p in now.paths && now.paths[p] == Some(Path(now.nodes, p))
  {
    InsertShaped(c.nodes, c.keys, kind, p, key, entities);
    InsertPaths(c.nodes, InodeOf(key.id), NewInode(p, key), c.paths);
  }

  /** The row and the triggers have run. */
  ghost predicate Inserted(c: Columns, p: InodeId, key: EntityKey, now: Columns) {
    var i, w := InodeOf(key.id), WithRow(c, p, key);
    && now.nodes == w.nodes && now.keys == w.keys && Tree(w.nodes) && p in w.nodes
    && now.dirty == Marked(w.nodes, c.dirty, p)
    && Covered(w.nodes, w.paths, now.paths, Subtree(w.nodes, i)) && now.log == w.log + Subtree(w.nodes, i)
  }

  lemma InsertDone(c: Columns, kind: Kind, p: InodeId, key: EntityKey, entities: set<EntityKey>, now: Columns)
    requires Fit(c) && CanInsert(c.nodes, c.keys, kind, p, key, entities) && Inserted(c, p, key, now)
    ensures PathsFit(now.nodes, now.paths) && now.log == c.log + {InodeOf(key.id)}
    ensures forall j :: j !in now.log ==> SameRow(c, now, j)
  {
    hide Fit, Tree, Named, Subtree, Marked, Path, PathsFit, PathsRight, Covered, CanInsert;
    var i, n := InodeOf(key.id), NewInode(p, key);
    InsertReadyTree(c, kind, p, key, entities);
    InsertPathsDone(c.nodes, i, n, c.paths, now.paths);
    InsertRows(c, p, key, now);
  }

  lemma InsertReadyTree(c: Columns, kind: Kind, p: InodeId, key: EntityKey, entities: set<EntityKey>)
    requires Fit(c) && CanInsert(c.nodes, c.keys, kind, p, key, entities)
    ensures var i, n := InodeOf(key.id), NewInode(p, key);
            && Tree(c.nodes) && i !in c.nodes && Tree(c.nodes[i := n]) && Named(c.nodes[i := n])
            && c.paths.Keys == c.nodes.Keys && c.keys.Keys == c.nodes.Keys && PathsRight(c.nodes, c.paths)
            && Subtree(c.nodes[i := n], i) == {i}
  {
    InsertShaped(c.nodes, c.keys, kind, p, key, entities);
    InsertPaths(c.nodes, InodeOf(key.id), NewInode(p, key), c.paths);
  }

  lemma InsertRows(c: Columns, p: InodeId, key: EntityKey, now: Columns)
    requires var i := InodeOf(key.id);
             && i !in c.nodes && c.paths.Keys == c.nodes.Keys && c.keys.Keys == c.nodes.Keys
             && now.nodes == c.nodes[i := NewInode(p, key)] && now.keys == c.keys[i := key] && now.paths.Keys == now.nodes.Keys
             && (forall j :: j in c.nodes ==> now.paths[j] == c.paths[j]) && i in now.log
    ensures forall j :: j !in now.log ==> SameRow(c, now, j)
  {
  }

  lemma InsertMarksDone(c: Columns, kind: Kind, p: InodeId, key: EntityKey, entities: set<EntityKey>, now: Columns)
    requires Fit(c) && CanInsert(c.nodes, c.keys, kind, p, key, entities) && Inserted(c, p, key, now)
    ensures Directories(now.nodes, now.dirty) && c.keys.Keys == c.nodes.Keys && now.keys.Keys == now.nodes.Keys
    ensures Closed(c.nodes, c.dirty) ==> Closed(now.nodes, now.dirty) && now.dirty == c.dirty + Upward(now.nodes, p)
    ensures Closed(c.nodes, c.dirty) ==> now.dirty == c.dirty + Upward(WithRow(c, p, key).nodes, p)
  {
    hide Tree, Named, Upward, Subtree, Marked, Covered, Closed, SlotTaken, IdTaken, ValidName, Directories;
    InsertMarked(c.nodes, c.dirty, InodeOf(key.id), NewInode(p, key));
  }

  lemma InsertKeyed(c: Columns, kind: Kind, p: InodeId, key: EntityKey, entities: set<EntityKey>, now: Columns)
    requires Fit(c) && CanInsert(c.nodes, c.keys, kind, p, key, entities) && Inserted(c, p, key, now)
    requires Registered(c.keys, entities) && c.keys.Keys == c.nodes.Keys && now.keys.Keys == now.nodes.Keys
    ensures Shaped(now.nodes, now.keys) && Registered(now.keys, entities)
    ensures Consistent(c.nodes, c.keys, c.dirty) ==> (Consistent(now.nodes, now.keys, now.dirty) <==> EntriesOf(key) == [])
  {
    hide Tree, Named, Upward, Subtree, Marked, Covered, Closed, SlotTaken, IdTaken, ValidName, Shaped, PathsFit;
    hide EntriesOf;
    hide Directories, Tracked;
    InsertShaped(c.nodes, c.keys, kind, p, key, entities);
    InsertMarksDone(c, kind, p, key, entities, now);
    if Consistent(c.nodes, c.keys, c.dirty) { InsertConsistent(c.nodes, c.keys, c.dirty, kind, p, key, entities); }
  }

  lemma InsertAllDone(c: Columns, kind: Kind, p: InodeId, key: EntityKey, entities: set<EntityKey>, now: Columns)
    requires Fit(c) && CanInsert(c.nodes, c.keys, kind, p, key, entities) && Inserted(c, p, key, now)
    requires Registered(c.keys, entities)
    ensures Fit(now) && Registered(now.keys, entities)
    ensures c.keys.Keys == c.nodes.Keys && now.keys.Keys == now.nodes.Keys
    ensures now.log == c.log + {InodeOf(key.id)} && forall j :: j !in now.log ==> SameRow(c, now, j)
    ensures Closed(c.nodes, c.dirty) ==> Closed(now.nodes, now.dirty) && now.dirty == c.dirty + Upward(now.nodes, p)
    ensures Consistent(c.nodes, c.keys, c.dirty) ==> (Consistent(now.nodes, now.keys, now.dirty) <==> EntriesOf(key) == [])
  {
    hide CanInsert, PathsFit, Shaped, Directories, Inserted, Upward, Closed, Registered, Consistent, SameRow, EntriesOf;
    InsertDone(c, kind, p, key, entities, now);
    InsertMarksDone(c, kind, p, key, entities, now);
    InsertKeyed(c, kind, p, key, entities, now);
  }

  // ---------- UPDATE of name and key ----------

  lemma RenameRelocates(nodes: Nodes, i: InodeId, name: string)
    requires Tree(nodes) && i in nodes && i != RootInode
    ensures Relocated(nodes, Renamed(nodes, i, name), i)
  {
    SameLinksTree(nodes, Renamed(nodes, i, name));
    ParentNotBelow(nodes, i);
  }

  lemma RenameReady(nodes: Nodes, i: InodeId, name: string, was: Paths)
    requires Tree(nodes) && Named(nodes) && i in nodes && Named(Renamed(nodes, i, name)) && name != nodes[i].name
    requires PathsRight(nodes, was)
    ensures Tree(Renamed(nodes, i, name))
    ensures NoClash(nodes, Renamed(nodes, i, name)) && Stale(nodes, Renamed(nodes, i, name), was)
    ensures i != RootInode ==> Parented(nodes, i)
    ensures i != RootInode ==> was[ParentOf(nodes, i)] == Some(Path(Renamed(nodes, i, name), ParentOf(nodes, i)))
  {
    var after := Renamed(nodes, i, name);
    SameLinksTree(nodes, after);
    if i == RootInode {
      assert Parented(nodes, i);
      RootNameInNoPath(nodes, after);
      hide Tree, Path, NoClash, Named;
    } else {
      RenameRelocates(nodes, i, name);
      RelocateReady(nodes, after, i, was);
    }
  }

  lemma RenameDone(nodes: Nodes, i: InodeId, name: string, was: Paths, now: Paths)
    requires Tree(nodes) && i in nodes && PathsRight(nodes, was) && Tree(Renamed(nodes, i, name))
    requires Covered(Renamed(nodes, i, name), was, now, Subtree(Renamed(nodes, i, name), i))
    ensures PathsRight(Renamed(nodes, i, name), now)
    ensures Subtree(Renamed(nodes, i, name), i) == Subtree(nodes, i)
    ensures forall j :: j in nodes && !Below(nodes, j, i) ==> now[j] == was[j]
  {
    var after := Renamed(nodes, i, name);
    if i == RootInode {
      SameLinksTree(nodes, after);
      BelowRoot(nodes, i);
      BelowRoot(after, i);
      hide Tree, Path, Below;
    } else {
      RenameRelocates(nodes, i, name);
      RelocateDone(nodes, after, i, was, now);
    }
  }

  lemma UpdateMarked(nodes: Nodes, keys: Keys, dirty: set<InodeId>, i: InodeId, key: EntityKey)
    requires Tree(nodes) && i in nodes && i in keys && i != RootInode && Directories(nodes, dirty)
    ensures Tree(Renamed(nodes, i, NameOf(key))) && Parented(nodes, i)
    ensures Directories(nodes, Marked(Renamed(nodes, i, NameOf(key)), dirty - {i}, ParentOf(nodes, i)))
    ensures Closed(nodes, dirty) && key != keys[i] ==>
      Marked(Renamed(nodes, i, NameOf(key)), dirty - {i}, ParentOf(nodes, i)) == MarksAfterUpdate(nodes, keys, dirty, i, key)
  {
    var after, q := Renamed(nodes, i, NameOf(key)), ParentOf(nodes, i);
    SameLinksTree(nodes, after);
    ParentNotBelow(nodes, i);
    MarkedDirectories(after, dirty - {i}, q);
    if Closed(nodes, dirty) {
      forall j | j in dirty - {i} && Below(after, q, j) ensures MarkedAbove(after, dirty - {i}, j) {
        assert MarkedAbove(nodes, dirty, j);
        if nodes[j].parent == Some(i) {
          BelowSelf(nodes, i);
          BelowStep(nodes, j, i);
          BelowTransitive(nodes, q, j, i);
        }
      }
      MarkedIsUpward(after, dirty - {i}, q);
      assert Upward(after, q) == Upward(nodes, q);
    }
  }

  /** The row has been updated and the triggers have run. */
  ghost predicate Updated(c: Columns, i: InodeId, key: EntityKey, now: Columns)
    requires i in c.nodes && i in c.keys && (i != RootInode ==> Parented(c.nodes, i))
  {
    && now.nodes == Renamed(c.nodes, i, NameOf(key)) && now.keys == c.keys[i := key] && Tree(now.nodes)
    && now.dirty == (if i != RootInode && key != c.keys[i] && ParentOf(c.nodes, i) in now.nodes
                     then Marked(now.nodes, c.dirty - {i}, ParentOf(c.nodes, i)) else c.dirty - {i})
    && (NameOf(key) == c.nodes[i].name ==>
          now.paths == c.paths && now.log == if key == c.keys[i] then c.log else c.log + {i})
    && (NameOf(key) != c.nodes[i].name ==>
          Covered(now.nodes, c.paths, now.paths, Subtree(now.nodes, i)) && now.log == c.log + {i} + Subtree(now.nodes, i))
  }

  lemma UpdateReady(c: Columns, i: InodeId, key: EntityKey, entities: set<EntityKey>)
    requires Fit(c) && c.keys.Keys == c.nodes.Keys && CanUpdate(c.nodes, c.keys, i, key, entities)
    ensures var now := Renamed(c.nodes, i, NameOf(key));
            && Tree(c.nodes) && Tree(now) && Named(now) && i in now && i in c.keys
            && (i != RootInode ==> Parented(c.nodes, i) && Parented(now, i))
            && (NameOf(key) != c.nodes[i].name ==> NoClash(c.nodes, now) && Stale(c.nodes, now, c.paths))
            && (i != RootInode ==> ParentOf(c.nodes, i) in c.paths)
            && (NameOf(key) != c.nodes[i].name && i != RootInode ==>
                  c.paths[ParentOf(c.nodes, i)] == Some(Path(now, ParentOf(c.nodes, i))))
  {
    UpdateShaped(c.nodes, c.keys, i, key, entities);
    hide Named, ValidName, SlotTaken, Keyed;
    assert Parented(c.nodes, i) && Parented(Renamed(c.nodes, i, NameOf(key)), i);
    if NameOf(key) != c.nodes[i].name { RenameReady(c.nodes, i, NameOf(key), c.paths); }
  }

  /** Which inodes an update writes to the log: all whose path or key changes. */
  ghost function TouchedByUpdate(nodes: Nodes, keys: Keys, i: InodeId, key: EntityKey): set<InodeId>
    requires i in nodes && i in keys
  {
    if key == keys[i] then {} else if NameOf(key) == nodes[i].name then {i} else Subtree(nodes, i)
  }

  /** What an update leaves behind in the path column and the log. */
  ghost predicate UpdateLogged(c: Columns, i: InodeId, key: EntityKey, now: Columns)
    requires i in c.nodes && i in c.keys
  {
    && PathsFit(now.nodes, now.paths)
    && now.log == c.log + TouchedByUpdate(c.nodes, c.keys, i, key)
    && forall j :: j !in TouchedByUpdate(c.nodes, c.keys, i, key) ==> SameRow(c, now, j)
  }

  lemma UpdateSameName(c: Columns, i: InodeId, key: EntityKey, now: Columns)
    requires Fit(c) && i in c.nodes && i in c.keys && (i != RootInode ==> Parented(c.nodes, i))
    requires Updated(c, i, key, now) && NameOf(key) == c.nodes[i].name
    ensures UpdateLogged(c, i, key, now)
  {
    hide Shaped, Directories, PathsFit, Parented, Marked, Path, Covered, Tree, Subtree;
    assert now.nodes == c.nodes;
  }

  lemma UpdateNewName(c: Columns, i: InodeId, key: EntityKey, now: Columns)
    requires Fit(c) && i in c.nodes && i in c.keys && (i != RootInode ==> Parented(c.nodes, i))
    requires Updated(c, i, key, now) && NameOf(key) != c.nodes[i].name
    ensures UpdateLogged(c, i, key, now)
  {
    hide Fit, PathsFit, Parented, Marked, Path, Covered, PathsRight, Tree, Subtree;
    SamePathKeys(c, i, key, now);
    UpdateNameKept(c, i, key);
    UpdateNewPaths(c, i, key, now);
    SubtreeHasTop(c.nodes, i);
    var gone := Subtree(c.nodes, i);
    assert now.log == c.log + gone;
    forall j | j !in gone ensures SameRow(c, now, j) {
    }
  }

  lemma SubtreeHasTop(nodes: Nodes, i: InodeId)
    requires i in nodes
    ensures i in Subtree(nodes, i)
  {
    BelowSelf(nodes, i);
  }

  lemma UpdateNewPaths(c: Columns, i: InodeId, key: EntityKey, now: Columns)
    requires Fit(c) && i in c.nodes && i in c.keys && (i != RootInode ==> Parented(c.nodes, i))
    requires Updated(c, i, key, now) && NameOf(key) != c.nodes[i].name
    ensures PathsFit(now.nodes, now.paths)
    ensures Subtree(now.nodes, i) == Subtree(c.nodes, i)
    ensures forall j :: j in c.nodes && j !in Subtree(c.nodes, i) ==> now.paths[j] == c.paths[j]
  {
    SamePathKeys(c, i, key, now);
    hide Shaped, Directories, Parented, Marked, Path, Covered, PathsRight, Tree;
    RenameDone(c.nodes, i, NameOf(key), c.paths, now.paths);
  }

  lemma UpdateRowsDone(c: Columns, i: InodeId, key: EntityKey, now: Columns)
    requires Fit(c) && i in c.nodes && i in c.keys && (i != RootInode ==> Parented(c.nodes, i))
    requires Updated(c, i, key, now)
    ensures UpdateLogged(c, i, key, now)
  {
    hide Fit, UpdateLogged, Parented, Updated;
    if NameOf(key) == c.nodes[i].name {
      UpdateSameName(c, i, key, now);
    } else {
      UpdateNewName(c, i, key, now);
    }
  }

  lemma SamePathKeys(c: Columns, i: InodeId, key: EntityKey, now: Columns)
    requires Fit(c) && i in c.nodes && i in c.keys && (i != RootInode ==> Parented(c.nodes, i))
    requires Updated(c, i, key, now)
    ensures now.paths.Keys == c.paths.Keys == c.nodes.Keys
  {
  }

  lemma UpdateNameKept(c: Columns, i: InodeId, key: EntityKey)
    requires Fit(c) && i in c.nodes && i in c.keys
    ensures key == c.keys[i] ==> NameOf(key) == c.nodes[i].name
  {
  }

  lemma UpdateMarksDone(c: Columns, i: InodeId, key: EntityKey, entities: set<EntityKey>, now: Columns)
    requires Fit(c) && c.keys.Keys == c.nodes.Keys && CanUpdate(c.nodes, c.keys, i, key, entities)
    requires i != RootInode ==> Parented(c.nodes, i)
    requires Updated(c, i, key, now)
    ensures Directories(now.nodes, now.dirty)
    ensures Closed(c.nodes, c.dirty) ==> now.dirty == MarksAfterUpdate(c.nodes, c.keys, c.dirty, i, key)
  {
    hide Named, ValidName, SlotTaken, Keyed, Covered, Marked, PathsFit, Closed;
    assert Parented(c.nodes, i);
    if i != RootInode { UpdateMarked(c.nodes, c.keys, c.dirty, i, key); }
  }

  lemma UpdateKeyedDone(c: Columns, i: InodeId, key: EntityKey, entities: set<EntityKey>, now: Columns)
    requires Fit(c) && c.keys.Keys == c.nodes.Keys && CanUpdate(c.nodes, c.keys, i, key, entities)
    requires i != RootInode ==> Parented(c.nodes, i)
    requires Updated(c, i, key, now) && Registered(c.keys, entities)
    ensures Shaped(now.nodes, now.keys) && Registered(now.keys, entities) && now.keys.Keys == now.nodes.Keys
    ensures Consistent(c.nodes, c.keys, c.dirty) ==>
      (Consistent(now.nodes, now.keys, now.dirty)
       <==> NoDirtyChild(c.nodes, c.dirty, i) && (c.nodes[i].kind.Dir? ==> Hashed(now.nodes, now.keys, i)))
  {
    hide Shaped, Covered, Marked, PathsFit, Closed, Directories, Tracked, Hashed, NoDirtyChild, ValidName, SlotTaken;
    hide Tree, Subtree, MarksAfterUpdate, EntriesOf;
    UpdateShaped(c.nodes, c.keys, i, key, entities);
    UpdateMarksDone(c, i, key, entities, now);
    if Consistent(c.nodes, c.keys, c.dirty) { UpdateConsistent(c.nodes, c.keys, c.dirty, i, key, entities); }
  }

  lemma UpdateAllDone(c: Columns, i: InodeId, key: EntityKey, entities: set<EntityKey>, now: Columns)
    requires Fit(c) && c.keys.Keys == c.nodes.Keys && CanUpdate(c.nodes, c.keys, i, key, entities)
    requires i in c.nodes && i in c.keys && (i != RootInode ==> Parented(c.nodes, i))
    requires Updated(c, i, key, now) && Registered(c.keys, entities)
    ensures Fit(now) && Registered(now.keys, entities) && now.keys.Keys == now.nodes.Keys
    ensures c.nodes.Keys == now.nodes.Keys
    ensures c.log <= now.log && forall j :: j !in now.log ==> SameRow(c, now, j)
    ensures now.log == c.log + TouchedByUpdate(c.nodes, c.keys, i, key)
    ensures Closed(c.nodes, c.dirty) ==> now.dirty == MarksAfterUpdate(c.nodes, c.keys, c.dirty, i, key)
    ensures Consistent(c.nodes, c.keys, c.dirty) ==>
      (Consistent(now.nodes, now.keys, now.dirty)
       <==> NoDirtyChild(c.nodes, c.dirty, i) && (c.nodes[i].kind.Dir? ==> Hashed(now.nodes, now.keys, i)))
  {
    hide Shaped, PathsFit, Closed, Directories, Tracked, Hashed, NoDirtyChild, CanUpdate, SameRow, Parented, Registered;
    hide MarksAfterUpdate, TouchedByUpdate;
    UpdateRowsDone(c, i, key, now);
    assert TouchedByUpdate(c.nodes, c.keys, i, key) <= now.log;
    UpdateMarksDone(c, i, key, entities, now);
    UpdateKeyedDone(c, i, key, entities, now);
  }

  // ---------- UPDATE of the parent ----------

  lemma MoveRelocates(nodes: Nodes, i: InodeId, p: InodeId)
    requires Tree(nodes) && CanMove(nodes, i, p)
    ensures Relocated(nodes, Moved(nodes, i, p), i)
  {
    MoveKeepsTree(nodes, i, p);
  }

  lemma MoveMarked(nodes: Nodes, dirty: set<InodeId>, i: InodeId, p: InodeId)
    requires Tree(nodes) && CanMove(nodes, i, p) && Directories(nodes, dirty)
    ensures Parented(nodes, i) && Tree(Moved(nodes, i, p)) && ParentOf(nodes, i) in Moved(nodes, i, p)
    ensures var after, q := Moved(nodes, i, p), ParentOf(nodes, i);
            Directories(after, Marked(after, Marked(after, dirty, p), q))
    ensures var after, q := Moved(nodes, i, p), ParentOf(nodes, i);
            Closed(nodes, dirty) ==> Marked(after, Marked(after, dirty, p), q) == dirty + Upward(after, p) + Upward(after, q)
  {
    var after := Moved(nodes, i, p);
    MoveKeepsTree(nodes, i, p);
    assert Parented(nodes, i);
    var q := ParentOf(nodes, i);
    MarkedDirectories(after, dirty, p);
    MarkedDirectories(after, Marked(after, dirty, p), q);
    if Closed(nodes, dirty) {
      MoveMarks(nodes, dirty, i, p);
      hide Tree, Upward, Below, Marked, Closed, ClosedAbove;
      MarkedIsUpward(after, dirty, p);
      ClosedEverywhere(after, dirty + Upward(after, p), q);
      MarkedIsUpward(after, dirty + Upward(after, p), q);
    }
  }

  /** The row has another parent now and the triggers have run. */
  ghost predicate MovedTo(c: Columns, i: InodeId, p: InodeId, now: Columns)
    requires i in c.nodes && c.nodes[i].parent.Some?
  {
    && now.nodes == Moved(c.nodes, i, p) && now.keys == c.keys && Tree(now.nodes)
    && p in now.nodes && ParentOf(c.nodes, i) in now.nodes
    && now.dirty == Marked(now.nodes, Marked(now.nodes, c.dirty, p), ParentOf(c.nodes, i))
    && Covered(now.nodes, c.paths, now.paths, Subtree(now.nodes, i)) && now.log == c.log + {i} + Subtree(now.nodes, i)
  }

  lemma MoveReady(c: Columns, i: InodeId, p: InodeId)
    requires Fit(c) && c.keys.Keys == c.nodes.Keys && CanMove(c.nodes, i, p) && c.nodes[i].parent != Some(p)
    ensures var now := Moved(c.nodes, i, p);
            && Tree(c.nodes) && Tree(now) && Named(now) && i in now && i in c.nodes && i != RootInode && c.nodes[i].parent.Some?
            && ParentOf(c.nodes, i) in now && NoClash(c.nodes, now) && Stale(c.nodes, now, c.paths)
            && p in now && p in c.paths && c.paths[p] == Some(Path(now, p)) && Parented(now, i)
  {
    hide Keyed, Directories, NoClash, Stale, Path;
    MoveShaped(c.nodes, c.keys, i, p);
    assert Parented(c.nodes, i);
    MoveRelocates(c.nodes, i, p);
    hide Below, Named;
    RelocateReady(c.nodes, Moved(c.nodes, i, p), i, c.paths);
  }

  lemma MovePathsDone(c: Columns, i: InodeId, p: InodeId, now: Columns)
    requires Fit(c) && CanMove(c.nodes, i, p) && c.nodes[i].parent.Some? && MovedTo(c, i, p, now)
    ensures PathsFit(now.nodes, now.paths) && now.paths.Keys == c.paths.Keys == c.nodes.Keys
    ensures Subtree(now.nodes, i) == Subtree(c.nodes, i)
    ensures forall j :: j in c.nodes && j !in Subtree(c.nodes, i) ==> now.paths[j] == c.paths[j]
  {
    hide Shaped, Directories, Path, Marked;
    assert c.nodes != map[] ==> Tree(c.nodes);
    MoveRelocates(c.nodes, i, p);
    hide CanMove, Tree;
    RelocateDone(c.nodes, Moved(c.nodes, i, p), i, c.paths, now.paths);
  }

  lemma MoveRowsDone(c: Columns, i: InodeId, p: InodeId, now: Columns)
    requires Fit(c) && CanMove(c.nodes, i, p) && c.nodes[i].parent.Some? && MovedTo(c, i, p, now)
    ensures PathsFit(now.nodes, now.paths) && now.log == c.log + Subtree(c.nodes, i)
    ensures forall j :: j !in Subtree(c.nodes, i) ==> SameRow(c, now, j)
  {
    hide Fit, PathsFit, CanMove, Tree, Subtree, Marked, Covered, Parented;
    MovePathsDone(c, i, p, now);
    assert i in c.nodes by { MoveHasRow(c.nodes, i, p); }
    SubtreeHasTop(c.nodes, i);
  }

  lemma MoveHasRow(nodes: Nodes, i: InodeId, p: InodeId)
    requires CanMove(nodes, i, p)
    ensures i in nodes
  {
  }

  lemma MoveKeysDone(c: Columns, i: InodeId, p: InodeId, now: Columns)
    requires Fit(c) && c.keys.Keys == c.nodes.Keys && CanMove(c.nodes, i, p) && c.nodes[i].parent.Some?
    requires MovedTo(c, i, p, now)
    ensures Shaped(now.nodes, now.keys) && Directories(now.nodes, now.dirty)
    ensures now.keys.Keys == now.nodes.Keys == c.nodes.Keys
    ensures Closed(c.nodes, c.dirty) ==>
      now.dirty == c.dirty + Upward(now.nodes, p) + Upward(now.nodes, ParentOf(c.nodes, i))
    ensures Consistent(c.nodes, c.keys, c.dirty) ==> Consistent(now.nodes, now.keys, now.dirty)
  {
    hide Named, Keyed, Directories, Closed, Tracked, CanMove, Marked, Covered, Subtree, Upward;
    MoveHasRow(c.nodes, i, p);
    MoveShaped(c.nodes, c.keys, i, p);
    hide Tree;
    MoveMarked(c.nodes, c.dirty, i, p);
    if Consistent(c.nodes, c.keys, c.dirty) { MoveConsistent(c.nodes, c.keys, c.dirty, i, p); }
  }

  lemma MoveAllDone(c: Columns, i: InodeId, p: InodeId, now: Columns)
    requires Fit(c) && c.keys.Keys == c.nodes.Keys && CanMove(c.nodes, i, p) && c.nodes[i].parent.Some?
    requires MovedTo(c, i, p, now)
    ensures Fit(now) && now.keys.Keys == now.nodes.Keys && c.nodes.Keys == now.nodes.Keys
    ensures c.log <= now.log && forall j :: j !in now.log ==> SameRow(c, now, j)
    ensures now.log == c.log + Subtree(c.nodes, i)
    ensures Closed(c.nodes, c.dirty) ==>
      now.dirty == c.dirty + Upward(now.nodes, p) + Upward(now.nodes, ParentOf(c.nodes, i))
    ensures Consistent(c.nodes, c.keys, c.dirty) ==> Consistent(now.nodes, now.keys, now.dirty)
  {
    hide Shaped, PathsFit, Closed, Directories, Tracked, CanMove, SameRow, Parented, Subtree, Upward, MovedTo;
    MoveRowsDone(c, i, p, now);
    MoveKeysDone(c, i, p, now);
    assert Subtree(c.nodes, i) <= now.log;
  }

  // ---------- DELETE ----------

  /** A row other than the root's and everything below it is gone, and the triggers have run. */
  ghost predicate Deleted(c: Columns, i: InodeId, now: Columns)
    requires i in c.nodes && c.nodes[i].parent.Some?
  {
    var rest := Without(c, Subtree(c.nodes, i));
    && Tree(rest.nodes) && ParentOf(c.nodes, i) in rest.nodes
    && now == rest.(dirty := Marked(rest.nodes, rest.dirty, ParentOf(c.nodes, i)))
  }

  lemma DeleteReady(c: Columns, i: InodeId)
    requires Fit(c) && i in c.nodes && i != RootInode
    ensures Tree(c.nodes) && Parented(c.nodes, i)
    ensures c.keys.Keys == c.nodes.Keys && c.paths.Keys == c.nodes.Keys && Subtree(c.nodes, i) <= c.nodes.Keys
    ensures Tree(c.nodes - Subtree(c.nodes, i)) && ParentOf(c.nodes, i) in c.nodes - Subtree(c.nodes, i)
  {
    PruneKeepsTree(c.nodes, i);
    ParentNotBelow(c.nodes, i);
  }

  lemma DeletePathsDone(c: Columns, i: InodeId)
    requires Fit(c) && i in c.nodes && i != RootInode
    ensures PathsFit(c.nodes - Subtree(c.nodes, i), c.paths - Subtree(c.nodes, i))
  {
    hide Shaped, Named, Keyed, Directories;
    assert Tree(c.nodes);
    PruneKeepsPaths(c.nodes, i);
    hide Tree, Subtree, Path;
  }

  lemma DeleteMarked(nodes: Nodes, dirty: set<InodeId>, i: InodeId)
    requires Tree(nodes) && i in nodes && i != RootInode && Directories(nodes, dirty) && Parented(nodes, i)
    requires Tree(nodes - Subtree(nodes, i)) && ParentOf(nodes, i) in nodes - Subtree(nodes, i)
    ensures var after, rest := nodes - Subtree(nodes, i), dirty - Subtree(nodes, i);
            Directories(after, Marked(after, rest, ParentOf(nodes, i)))
    ensures var after, rest := nodes - Subtree(nodes, i), dirty - Subtree(nodes, i);
            Closed(nodes, dirty) ==> Marked(after, rest, ParentOf(nodes, i)) == rest + Upward(after, ParentOf(nodes, i))
  {
    hide Subtree;
    var after, rest := nodes - Subtree(nodes, i), dirty - Subtree(nodes, i);
    MarkedDirectories(after, rest, ParentOf(nodes, i));
    if Closed(nodes, dirty) {
      DeleteMarks(nodes, dirty, i);
      ClosedEverywhere(after, rest, ParentOf(nodes, i));
      MarkedIsUpward(after, rest, ParentOf(nodes, i));
    }
  }

  lemma DeleteKeysDone(c: Columns, i: InodeId, now: Columns)
    requires Fit(c) && i in c.nodes && i != RootInode && Parented(c.nodes, i) && Deleted(c, i, now)
    requires c.keys.Keys == c.nodes.Keys
    ensures Shaped(now.nodes, now.keys) && Directories(now.nodes, now.dirty) && now.keys.Keys == now.nodes.Keys
    ensures Closed(c.nodes, c.dirty) ==>
      now.dirty == c.dirty - Subtree(c.nodes, i) + Upward(now.nodes, ParentOf(c.nodes, i))
    ensures Consistent(c.nodes, c.keys, c.dirty) ==> Consistent(now.nodes, now.keys, now.dirty)
  {
    hide Named, Keyed, Directories, Closed, Tracked, Marked, Subtree, Upward;
    DeleteShaped(c.nodes, c.keys, i);
    hide Tree;
    DeleteMarked(c.nodes, c.dirty, i);
    if Consistent(c.nodes, c.keys, c.dirty) { DeleteConsistent(c.nodes, c.keys, c.dirty, i); }
  }

  lemma RegisteredFewer(keys: Keys, gone: set<InodeId>, entities: set<EntityKey>)
    requires Registered(keys, entities)
    ensures Registered(keys - gone, entities)
  {
  }

  lemma DeleteAllDone(c: Columns, i: InodeId, now: Columns, entities: set<EntityKey>)
    requires Fit(c) && i in c.nodes && i != RootInode && Parented(c.nodes, i) && Deleted(c, i, now)
    requires c.keys.Keys == c.nodes.Keys && Registered(c.keys, entities)
    ensures Fit(now) && Registered(now.keys, entities) && now.keys.Keys == now.nodes.Keys
    ensures now.log == c.log + Subtree(c.nodes, i) && forall j :: j !in now.log ==> SameRow(c, now, j)
    ensures now.nodes == c.nodes - Subtree(c.nodes, i) && now.keys == c.keys - Subtree(c.nodes, i)
    ensures Closed(c.nodes, c.dirty) ==>
      now.dirty == c.dirty - Subtree(c.nodes, i) + Upward(now.nodes, ParentOf(c.nodes, i))
    ensures Consistent(c.nodes, c.keys, c.dirty) ==> Consistent(now.nodes, now.keys, now.dirty)
  {
    hide Shaped, PathsFit, Closed, Directories, Tracked, Subtree, Upward, Tree, Registered, Marked, Parented;
    DeletePathsDone(c, i);
    DeleteKeysDone(c, i, now);
    RegisteredFewer(c.keys, Subtree(c.nodes, i), entities);
  }

  predicate HandlesFit(nodes: Nodes, handles: map<nat, InodeId>) {
    forall h :: h in handles ==> handles[h] in nodes
  }

  lemma HandlesStay(before: Nodes, after: Nodes, handles: map<nat, InodeId>)
    requires HandlesFit(before, handles) && before.Keys <= after.Keys
    ensures HandlesFit(after, handles)
  {
  }

  lemma RestAreChildren(tree: Nodes, i: InodeId, rest: set<InodeId>, covered: set<InodeId>)
    requires Gathered(tree, i, rest, covered)
    ensures rest <= Children(tree, i)
  {
  }

  lemma ParentIsDone(nodes: Nodes, was: Paths, paths: Paths, covered: set<InodeId>, i: InodeId, rest: set<InodeId>)
    requires Tree(nodes) && i in nodes && Covered(nodes, was, paths, covered) && Gathered(nodes, i, rest, covered)
    ensures i in paths && paths[i] == Some(Path(nodes, i))
  {
  }

  lemma FitTree(c: Columns)
    requires Fit(c)
    ensures c.nodes != map[] ==> Tree(c.nodes)
    ensures Shaped(c.nodes, c.keys)
    ensures c.keys.Keys == c.nodes.Keys && c.paths.Keys == c.nodes.Keys
  {
  }

  lemma FitNamed(c: Columns)
    requires Fit(c) && c.nodes != map[]
    ensures Named(c.nodes) && PathsRight(c.nodes, c.paths)
  {
  }

  lemma FitAnyLog(c: Columns, log: set<InodeId>)
    requires Fit(c)
    ensures Fit(c.(log := log))
  {
  }

  lemma NothingBelow(nodes: Nodes, keys: Keys, i: InodeId)
    requires (nodes != map[] ==> Tree(nodes)) && i !in nodes && keys.Keys == nodes.Keys
    ensures Subtree(nodes, i) == {} && nodes - Subtree(nodes, i) == nodes && keys - Subtree(nodes, i) == keys
  {
    forall j | j in nodes ensures !Below(nodes, j, i) {
      if n: nat :| Up(nodes, j, n) == Some(i) { UpStaysInside(nodes, j, n); }
    }
  }

  lemma {:induction false} UpStaysInside(nodes: Nodes, j: InodeId, n: nat)
    requires Tree(nodes) && j in nodes && Up(nodes, j, n).Some?
    ensures Up(nodes, j, n).value in nodes
    decreases n
  {
    if n > 0 {
      assert Parented(nodes, j);
      UpStaysInside(nodes, nodes[j].parent.value, n - 1);
    }
  }

  lemma HandlesAndSubtree(before: Nodes, after: Nodes, i: InodeId, handles: map<nat, InodeId>)
    requires HandlesFit(before, handles) && after == before - Subtree(before, i)
    ensures HandlesFit(after, handles) <==> forall h :: h in handles ==> handles[h] !in Subtree(before, i)
  {
    hide Subtree;
  }

  // ---------- the whole table ----------

  lemma EmptyFit(log: set<InodeId>)
    ensures Fit(Columns(map[], map[], map[], {}, log))
  {
  }

  lemma WholeTree(c: Columns)
    requires Fit(c) && RootInode in c.nodes
    ensures Tree(c.nodes) && Subtree(c.nodes, RootInode) == c.nodes.Keys
    ensures Without(c, c.nodes.Keys) == Columns(map[], map[], map[], {}, c.log + c.nodes.Keys)
  {
    assert Tree(c.nodes);
    BelowRoot(c.nodes, RootInode);
    hide Tree, Below;
    assert c.nodes - c.nodes.Keys == map[] && c.keys - c.nodes.Keys == map[] && c.paths - c.nodes.Keys == map[];
    assert c.dirty - c.nodes.Keys == {};
  }

  lemma NoRootNoRows(c: Columns)
    requires Fit(c) && RootInode !in c.nodes
    ensures c.nodes == map[] && c.keys == map[] && c.paths == map[] && c.dirty == {}
  {
  }

  function RootRow(key: EntityKey): Inode {
    Inode(Dir, NameOf(key), None)
  }

  lemma RootOnlyTree(key: EntityKey)
    requires ValidName(NameOf(key)) && KindOf(key).Dir?
    ensures var nodes := map[RootInode := RootRow(key)];
            && Tree(nodes) && Named(nodes) && Keyed(nodes, map[RootInode := key]) && NoClash(nodes, nodes)
            && Path(nodes, RootInode) == "/" && Subtree(nodes, RootInode) == {RootInode}
            && Stale(nodes, nodes, map[RootInode := None])
  {
    var nodes := map[RootInode := RootRow(key)];
    assert Up(nodes, RootInode, 0) == Some(RootInode);
    assert forall i :: i in nodes ==> Parented(nodes, i) && ReachesRoot(nodes, i);
    assert Tree(nodes);
    BelowRoot(nodes, RootInode);
    assert Below(nodes, RootInode, RootInode);
  }

  lemma RootOnlyFit(key: EntityKey, paths: Paths, log: set<InodeId>)
    requires ValidName(NameOf(key)) && KindOf(key).Dir?
    requires var nodes := map[RootInode := RootRow(key)];
             Tree(nodes) && Covered(nodes, map[RootInode := None], paths, Subtree(nodes, RootInode))
    ensures Fit(Columns(map[RootInode := RootRow(key)], map[RootInode := key], paths, {}, log))
  {
    RootOnlyTree(key);
    hide Tree, Named, Keyed, NoClash, Path, Subtree;
  }

  lemma FewerRows(nodes: Nodes, i: InodeId)
    requires i in nodes && i in Subtree(nodes, i)
    ensures |nodes - Subtree(nodes, i)| < |nodes|
    ensures (nodes - Subtree(nodes, i)).Keys == nodes.Keys - Subtree(nodes, i) && Subtree(nodes, i) <= nodes.Keys
  {
    var gone := Subtree(nodes, i);
    assert gone <= nodes.Keys;
    hide Subtree;
    assert (nodes - gone).Keys == nodes.Keys - gone < nodes.Keys;
  }

  lemma NoHandles(nodes: Nodes)
    ensures HandlesFit(nodes, map[])
  {
  }

  lemma RegisteredOne(keys: Keys, entities: set<EntityKey>, key: EntityKey)
    requires Registered(keys, entities) && key in entities
    ensures Registered(map[RootInode := key], entities)
  {
  }

  lemma CoveredKeys(nodes: Nodes, was: Paths, paths: Paths, covered: set<InodeId>)
    requires Tree(nodes) && Covered(nodes, was, paths, covered)
    ensures paths.Keys == nodes.Keys
  {
  }

  function Showing(keys: Keys, key: EntityKey): set<InodeId> {
    set i | i in keys && keys[i] == key
  }

  /** Every inode whose storage mode changes shows the entity. */
  lemma SyncLogged(base: Views, c: Columns, synced: set<EntityKey>, key: EntityKey)
    requires Logged(base, ViewsOf(c.nodes, c.keys, c.paths, synced), c.log)
    ensures Logged(base, ViewsOf(c.nodes, c.keys, c.paths, synced + {key}), c.log + Showing(c.keys, key))
  {
    var was, now := ViewsOf(c.nodes, c.keys, c.paths, synced), ViewsOf(c.nodes, c.keys, c.paths, synced + {key});
    var log' := c.log + Showing(c.keys, key);
    forall i | i !in log' ensures SameView(was, now, i) {
    }
    hide ViewsOf, SameView;
    LoggedStep(base, was, c.log, now, log');
  }
}
