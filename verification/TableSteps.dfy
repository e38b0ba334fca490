/** What each statement on the vfs table does to its columns, and what the columns keep: a tree with
    named slots, keys that fit, dirty marks closed towards the root, and every out-of-date directory
    marked (janus-vfs/migrations/202605201500_initial.sql, janus-vfs/src/vfs/mod.rs). */
module TableSteps {
  import opened Wrappers
  import opened Trees
  import opened Marks
  import opened Entities
  import opened Merkle

  ghost predicate Shaped(nodes: Nodes, keys: Keys) {
    (nodes != map[] ==> Tree(nodes) && Named(nodes)) && Keyed(nodes, keys)
  }

  /** Between the statements of a transaction: the marks are closed, and name every stale directory. */
  ghost predicate Consistent(nodes: Nodes, keys: Keys, dirty: set<InodeId>)
    requires keys.Keys == nodes.Keys
  {
    Closed(nodes, dirty) && Directories(nodes, dirty) && Tracked(nodes, keys, dirty)
  }

  /** `UNIQUE (parent, name)` */
  predicate SlotTaken(nodes: Nodes, p: Option<InodeId>, name: string, i: InodeId) {
    exists j :: j in nodes && j != i && p.Some? && nodes[j].parent == p && nodes[j].name == name
  }

  predicate IdTaken(keys: Keys, id: EntityId) {
    exists j :: j in keys && keys[j].id == id
  }

  // ---------- INSERT ----------

  /** When the table accepts a new inode under `p`. */
  predicate CanInsert(nodes: Nodes, keys: Keys, kind: Kind, p: InodeId, key: EntityKey, entities: set<EntityKey>) {
    && InodeOf(key.id) !in nodes && !IdTaken(keys, key.id)
    && p in nodes && nodes[p].kind.Dir? && key in entities
    && KindOf(key) == kind && ValidName(NameOf(key)) && !SlotTaken(nodes, Some(p), NameOf(key), InodeOf(key.id))
  }

  function NewInode(p: InodeId, key: EntityKey): Inode {
    Inode(KindOf(key), NameOf(key), Some(p))
  }

  lemma InsertShaped(nodes: Nodes, keys: Keys, kind: Kind, p: InodeId, key: EntityKey, entities: set<EntityKey>)
    requires Shaped(nodes, keys) && CanInsert(nodes, keys, kind, p, key, entities)
    ensures Shaped(nodes[InodeOf(key.id) := NewInode(p, key)], keys[InodeOf(key.id) := key])
  {
    InsertKeepsTree(nodes, InodeOf(key.id), NewInode(p, key));
    InsertNamed(nodes, InodeOf(key.id), NewInode(p, key));
    hide Tree, Named;
  }

  lemma InsertNamed(nodes: Nodes, i: InodeId, n: Inode)
    requires Tree(nodes) && Named(nodes) && i !in nodes && ValidName(n.name) && !SlotTaken(nodes, n.parent, n.name, i)
    requires n.parent.Some?
    ensures Named(nodes[i := n])
  {
    assert Parented(nodes, RootInode);
  }

  lemma InsertChildren(nodes: Nodes, keys: Keys, p: InodeId, key: EntityKey, q: InodeId)
    requires Shaped(nodes, keys) && nodes != map[] && InodeOf(key.id) !in nodes
    ensures q == InodeOf(key.id) && q != p ==>
              ChildKeys(nodes[InodeOf(key.id) := NewInode(p, key)], keys[InodeOf(key.id) := key], q) == {}
    ensures q in nodes && q != p ==>
              ChildKeys(nodes[InodeOf(key.id) := NewInode(p, key)], keys[InodeOf(key.id) := key], q)
              == ChildKeys(nodes, keys, q)
  {
    var i := InodeOf(key.id);
    var after, keys' := nodes[i := NewInode(p, key)], keys[i := key];
    if q == i && q != p {
      forall c ensures !ChildOf(after, q, c) {
        if c in nodes { assert Parented(nodes, c); }
      }
    }
    if q in nodes && q != p {
      assert forall c :: ChildOf(after, q, c) <==> ChildOf(nodes, q, c);
      assert forall c :: ChildOf(nodes, q, c) ==> keys'[c] == keys[c];
    }
  }

  lemma SortedNone(children: set<EntityKey>)
    requires children == {}
    ensures DistinctIds(children) && SortedEntries(children) == []
  {
  }

  /** A new inode's ancestors are marked; the new inode itself is not, so its body must be empty. */
  lemma InsertConsistent(nodes: Nodes, keys: Keys, dirty: set<InodeId>, kind: Kind, p: InodeId, key: EntityKey,
                         entities: set<EntityKey>)
    requires Shaped(nodes, keys) && CanInsert(nodes, keys, kind, p, key, entities)
    requires Consistent(nodes, keys, dirty)
    ensures var i := InodeOf(key.id);
            var after, keys' := nodes[i := NewInode(p, key)], keys[i := key];
            Tree(after) && (Consistent(after, keys', dirty + Upward(after, p)) <==> EntriesOf(key) == [])
  {
    var i := InodeOf(key.id);
    var after, keys' := nodes[i := NewInode(p, key)], keys[i := key];
    InsertMarks(nodes, dirty, i, NewInode(p, key));
    var dirty' := dirty + Upward(after, p);
    hide Tree, Named, Upward, SortedEntries, ChildKeys, Closed;
    InsertChildren(nodes, keys, p, key, i);
    SortedNone(ChildKeys(after, keys', i));
    forall q | q in after && after[q].kind.Dir? && q !in dirty' && (q != i || EntriesOf(key) == [])
      ensures Hashed(after, keys', q)
    {
      if q != i {
        InsertChildren(nodes, keys, p, key, q);
        assert Hashed(nodes, keys, q);
      }
    }
    assert Tracked(after, keys', dirty') && KindOf(key).Dir? ==> Hashed(after, keys', i);
  }

  lemma InsertMarks(nodes: Nodes, dirty: set<InodeId>, i: InodeId, n: Inode)
    requires Tree(nodes) && i !in nodes && n.parent.Some? && n.parent.value in nodes
    requires nodes[n.parent.value].kind == Dir
    requires Closed(nodes, dirty) && Directories(nodes, dirty)
    ensures var after, p := nodes[i := n], n.parent.value;
            Tree(after) && p in Upward(after, p) && i !in dirty + Upward(after, p) && p != i
            && ClosedAbove(after, dirty, p)
            && Closed(after, dirty + Upward(after, p)) && Directories(after, dirty + Upward(after, p))
  {
    var after, p := nodes[i := n], n.parent.value;
    InsertKeepsTree(nodes, i, n);
    forall j | j in dirty ensures MarkedAbove(after, dirty, j) { assert MarkedAbove(nodes, dirty, j); }
    MarkingCloses(after, dirty, p);
    UpwardClosed(after, p);
    ParentNotBelow(after, i);
  }

  // ---------- UPDATE of name and key ----------

  /** When the table accepts a new key for `i`, and with it the entity's name. */
  predicate CanUpdate(nodes: Nodes, keys: Keys, i: InodeId, key: EntityKey, entities: set<EntityKey>)
    requires keys.Keys == nodes.Keys
  {
    && i in nodes && keys[i].id == key.id && KindOf(key) == nodes[i].kind && key in entities
    && ValidName(NameOf(key)) && !SlotTaken(nodes, nodes[i].parent, NameOf(key), i)
  }

  function Renamed(nodes: Nodes, i: InodeId, name: string): Nodes
    requires i in nodes
  {
    nodes[i := nodes[i].(name := name)]
  }

  lemma UpdateShaped(nodes: Nodes, keys: Keys, i: InodeId, key: EntityKey, entities: set<EntityKey>)
    requires Shaped(nodes, keys) && CanUpdate(nodes, keys, i, key, entities)
    ensures Shaped(Renamed(nodes, i, NameOf(key)), keys[i := key])
  {
    SameLinksTree(nodes, Renamed(nodes, i, NameOf(key)));
    RenameNamed(nodes, i, NameOf(key));
    UpdateKeyed(nodes, keys, i, key);
    hide Tree, Named, Keyed, ValidName, SlotTaken, KindOf, NameOf;
  }

  lemma UpdateKeyed(nodes: Nodes, keys: Keys, i: InodeId, key: EntityKey)
    requires Keyed(nodes, keys) && i in nodes && keys[i].id == key.id && KindOf(key) == nodes[i].kind
    ensures Keyed(Renamed(nodes, i, NameOf(key)), keys[i := key])
  {
  }

  lemma RenameNamed(nodes: Nodes, i: InodeId, name: string)
    requires Tree(nodes) && Named(nodes) && i in nodes && ValidName(name) && !SlotTaken(nodes, nodes[i].parent, name, i)
    ensures Named(Renamed(nodes, i, name))
  {
    var after := Renamed(nodes, i, name);
    forall a, b | a in after && b in after && SameSlot(after, a, b) ensures a == b {
      assert Parented(nodes, a) && Parented(nodes, b);
      if a != i && b != i { assert SameSlot(nodes, a, b); }
    }
  }

  /** The marks after the statement: the row's own mark is cleared, and its ancestors are marked if
      its name or revision changed. */
  ghost function MarksAfterUpdate(nodes: Nodes, keys: Keys, dirty: set<InodeId>, i: InodeId, key: EntityKey): set<InodeId>
    requires i in nodes && i in keys
  {
    if i != RootInode && nodes[i].parent.Some? && key != keys[i]
    then dirty - {i} + Upward(nodes, ParentOf(nodes, i)) else dirty - {i}
  }

  lemma UpdateMarks(nodes: Nodes, keys: Keys, dirty: set<InodeId>, i: InodeId, key: EntityKey)
    requires Tree(nodes) && i in nodes && i in keys && Closed(nodes, dirty) && Directories(nodes, dirty)
    ensures var after, d := Renamed(nodes, i, NameOf(key)), MarksAfterUpdate(nodes, keys, dirty, i, key);
            && i !in d && Directories(after, d) && (Closed(after, d) <==> NoDirtyChild(nodes, dirty, i))
  {
    var after := Renamed(nodes, i, NameOf(key));
    var d := MarksAfterUpdate(nodes, keys, dirty, i, key);
    if i != RootInode {
      ParentNotBelow(nodes, i);
      UpwardClosed(nodes, ParentOf(nodes, i));
    }
    if c :| c in dirty && c in nodes && nodes[c].parent == Some(i) {
      assert c != i by { if i != RootInode { BelowSelf(nodes, i); } }
      assert c in d && !MarkedAbove(after, d, c);
    } else {
      forall j | j in d ensures MarkedAbove(after, d, j) {
        if j in dirty { assert MarkedAbove(nodes, dirty, j); }
        else { assert MarkedAbove(nodes, Upward(nodes, ParentOf(nodes, i)), j); }
      }
    }
  }

  lemma UpdateChildren(nodes: Nodes, keys: Keys, i: InodeId, key: EntityKey, q: InodeId)
    requires keys.Keys == nodes.Keys && i in nodes
    requires nodes[i].parent != Some(q) || keys[i] == key
    ensures ChildKeys(Renamed(nodes, i, NameOf(key)), keys[i := key], q) == ChildKeys(nodes, keys, q)
  {
    var after, keys' := Renamed(nodes, i, NameOf(key)), keys[i := key];
    assert forall c :: ChildOf(after, q, c) <==> ChildOf(nodes, q, c);
    assert forall c :: ChildOf(nodes, q, c) ==> keys'[c] == keys[c];
  }

  lemma ParentIsMarked(nodes: Nodes, keys: Keys, dirty: set<InodeId>, i: InodeId, key: EntityKey)
    requires Tree(nodes) && i in nodes && i in keys && nodes[i].parent.Some? && key != keys[i]
    ensures ParentOf(nodes, i) in MarksAfterUpdate(nodes, keys, dirty, i, key)
  {
    assert Parented(nodes, i);
    BelowSelf(nodes, ParentOf(nodes, i));
  }

  lemma UpdateTracked(nodes: Nodes, keys: Keys, dirty: set<InodeId>, i: InodeId, key: EntityKey)
    requires Tree(nodes) && keys.Keys == nodes.Keys && i in nodes && Tracked(nodes, keys, dirty)
    requires i !in MarksAfterUpdate(nodes, keys, dirty, i, key)
    ensures Tracked(Renamed(nodes, i, NameOf(key)), keys[i := key], MarksAfterUpdate(nodes, keys, dirty, i, key))
            <==> (nodes[i].kind.Dir? ==> Hashed(Renamed(nodes, i, NameOf(key)), keys[i := key], i))
  {
    var after, keys' := Renamed(nodes, i, NameOf(key)), keys[i := key];
    var d := MarksAfterUpdate(nodes, keys, dirty, i, key);
    if nodes[i].parent.Some? && key != keys[i] { ParentIsMarked(nodes, keys, dirty, i, key); }
    hide Tree, MarksAfterUpdate, Hashed;
    forall q | q in after && after[q].kind.Dir? && q !in d && q != i ensures Hashed(after, keys', q) {
      UpdateChildren(nodes, keys, i, key, q);
      UnmarkedBefore(nodes, keys, dirty, i, key, q);
      SameChildrenHashed(nodes, keys, after, keys', q);
    }
  }

  lemma SameChildrenHashed(nodes: Nodes, keys: Keys, after: Nodes, keys': Keys, q: InodeId)
    requires SameChildren(nodes, keys, after, keys', q)
    ensures Hashed(after, keys', q) <==> Hashed(nodes, keys, q)
  {
    hide SortedEntries, ChildKeys, DistinctIds;
  }

  /** An update keeps the store consistent exactly when the inode has no dirty child and, for a
      directory, the new body lists its children: clearing the mark is right only then. */
  lemma UpdateConsistent(nodes: Nodes, keys: Keys, dirty: set<InodeId>, i: InodeId, key: EntityKey, entities: set<EntityKey>)
    requires Shaped(nodes, keys) && CanUpdate(nodes, keys, i, key, entities) && Consistent(nodes, keys, dirty)
    ensures var after, keys', d := Renamed(nodes, i, NameOf(key)), keys[i := key], MarksAfterUpdate(nodes, keys, dirty, i, key);
            Consistent(after, keys', d)
            <==> NoDirtyChild(nodes, dirty, i) && (nodes[i].kind.Dir? ==> Hashed(after, keys', i))
  {
    hide Tree, Named, Hashed, Closed, Directories, Tracked, MarksAfterUpdate, NoDirtyChild, ValidName, SlotTaken;
    UpdateMarks(nodes, keys, dirty, i, key);
    UpdateTracked(nodes, keys, dirty, i, key);
  }

  lemma UnmarkedBefore(nodes: Nodes, keys: Keys, dirty: set<InodeId>, i: InodeId, key: EntityKey, q: InodeId)
    requires i in nodes && i in keys && q != i && q !in MarksAfterUpdate(nodes, keys, dirty, i, key)
    ensures q !in dirty
  {
  }

  // ---------- UPDATE of the parent ----------

  /** When the table accepts another parent for `i`. */
  ghost predicate CanMove(nodes: Nodes, i: InodeId, p: InodeId) {
    && i in nodes && i != RootInode && p in nodes && nodes[p].kind.Dir?
    && !Below(nodes, p, i) && !SlotTaken(nodes, Some(p), nodes[i].name, i)
  }

  lemma MoveShaped(nodes: Nodes, keys: Keys, i: InodeId, p: InodeId)
    requires Shaped(nodes, keys) && CanMove(nodes, i, p)
    ensures Shaped(Moved(nodes, i, p), keys)
  {
    hide Tree, Named, Below, SlotTaken, KindOf, NameOf, Parented;
    MoveKeepsTree(nodes, i, p);
    MoveNamed(nodes, i, p);
  }

  lemma MoveNamed(nodes: Nodes, i: InodeId, p: InodeId)
    requires Named(nodes) && CanMove(nodes, i, p)
    ensures Named(Moved(nodes, i, p))
  {
    var after := Moved(nodes, i, p);
    forall a, b | a in after && b in after && SameSlot(after, a, b) ensures a == b {
      if a != i && b != i { assert SameSlot(nodes, a, b); }
    }
  }

  lemma MoveMarks(nodes: Nodes, dirty: set<InodeId>, i: InodeId, p: InodeId)
    requires Tree(nodes) && CanMove(nodes, i, p) && Closed(nodes, dirty) && Directories(nodes, dirty)
    ensures Parented(nodes, i)
    ensures var after, q := Moved(nodes, i, p), ParentOf(nodes, i);
            var d := dirty + Upward(after, p);
            && Tree(after) && p in Upward(after, p) && q in after && q in Upward(after, q)
            && ClosedAbove(after, dirty, p) && Closed(after, d) && Directories(after, d)
            && Closed(after, d + Upward(after, q)) && Directories(after, d + Upward(after, q))
  {
    var after := Moved(nodes, i, p);
    MoveKeepsTree(nodes, i, p);
    assert Parented(nodes, i);
    var q := ParentOf(nodes, i);
    forall j | j in dirty ensures MarkedAbove(after, dirty + {p}, j) { assert MarkedAbove(nodes, dirty, j); }
    MarkingCloses(after, dirty, p);
    UpwardClosed(after, p);
    UpwardClosed(after, q);
    UnionClosed(after, dirty + Upward(after, p), Upward(after, q));
  }

  lemma MoveChildren(nodes: Nodes, keys: Keys, i: InodeId, p: InodeId, r: InodeId)
    requires keys.Keys == nodes.Keys && i in nodes && r != p && nodes[i].parent != Some(r)
    ensures ChildKeys(Moved(nodes, i, p), keys, r) == ChildKeys(nodes, keys, r)
  {
    assert forall c :: ChildOf(Moved(nodes, i, p), r, c) <==> ChildOf(nodes, r, c);
  }

  /** A move marks both parents and all above them, which keeps the store consistent. */
  lemma MoveConsistent(nodes: Nodes, keys: Keys, dirty: set<InodeId>, i: InodeId, p: InodeId)
    requires Shaped(nodes, keys) && CanMove(nodes, i, p) && Consistent(nodes, keys, dirty)
    ensures Parented(nodes, i)
    ensures var after := Moved(nodes, i, p);
            Consistent(after, keys, dirty + Upward(after, p) + Upward(after, ParentOf(nodes, i)))
  {
    var after := Moved(nodes, i, p);
    MoveMarks(nodes, dirty, i, p);
    var d := dirty + Upward(after, p) + Upward(after, ParentOf(nodes, i));
    hide Tree, Named, Upward, SortedEntries, ChildKeys, Closed, Below;
    forall r | r in after && after[r].kind.Dir? && r !in d ensures Hashed(after, keys, r) {
      MoveChildren(nodes, keys, i, p, r);
      assert Hashed(nodes, keys, r);
    }
  }

  // ---------- DELETE ----------

  lemma DeleteShaped(nodes: Nodes, keys: Keys, i: InodeId)
    requires Shaped(nodes, keys) && i in nodes && i != RootInode
    ensures Shaped(nodes - Subtree(nodes, i), keys - Subtree(nodes, i))
  {
    PruneKeepsTree(nodes, i);
    hide Tree, Subtree, ValidName, KindOf, NameOf;
    var after := nodes - Subtree(nodes, i);
    forall a, b | a in after && b in after && SameSlot(after, a, b) ensures a == b {
      assert SameSlot(nodes, a, b);
    }
  }

  lemma DeleteMarks(nodes: Nodes, dirty: set<InodeId>, i: InodeId)
    requires Tree(nodes) && i in nodes && i != RootInode && Closed(nodes, dirty) && Directories(nodes, dirty)
    ensures Parented(nodes, i)
    ensures var after, q, rest := nodes - Subtree(nodes, i), ParentOf(nodes, i), dirty - Subtree(nodes, i);
            && Tree(after) && q in after && q in Upward(after, q)
            && Closed(after, rest) && Closed(after, rest + Upward(after, q)) && Directories(after, rest + Upward(after, q))
  {
    var after, rest := nodes - Subtree(nodes, i), dirty - Subtree(nodes, i);
    PruneKeepsTree(nodes, i);
    ParentNotBelow(nodes, i);
    var q := ParentOf(nodes, i);
    forall j | j in rest ensures MarkedAbove(after, rest, j) {
      assert MarkedAbove(nodes, dirty, j);
      if nodes[j].parent.Some? { BelowStep(nodes, j, i); }
    }
    UpwardClosed(after, q);
    UnionClosed(after, rest, Upward(after, q));
  }

  lemma DeleteChildren(nodes: Nodes, keys: Keys, i: InodeId, r: InodeId)
    requires Tree(nodes) && keys.Keys == nodes.Keys && i in nodes && nodes[i].parent != Some(r)
    requires r in nodes && !Below(nodes, r, i)
    ensures ChildKeys(nodes - Subtree(nodes, i), keys - Subtree(nodes, i), r) == ChildKeys(nodes, keys, r)
  {
    forall c | ChildOf(nodes, r, c) ensures c !in Subtree(nodes, i) {
      BelowStep(nodes, c, i);
    }
    var after, keys' := nodes - Subtree(nodes, i), keys - Subtree(nodes, i);
    assert forall c :: ChildOf(after, r, c) <==> ChildOf(nodes, r, c);
    assert forall c :: ChildOf(nodes, r, c) ==> c in keys' && keys'[c] == keys[c];
  }

  /** A delete marks the parent and all above it, which keeps the store consistent. */
  lemma DeleteConsistent(nodes: Nodes, keys: Keys, dirty: set<InodeId>, i: InodeId)
    requires Shaped(nodes, keys) && i in nodes && i != RootInode && Consistent(nodes, keys, dirty)
    ensures Parented(nodes, i)
    ensures var after, gone := nodes - Subtree(nodes, i), Subtree(nodes, i);
            Consistent(after, keys - gone, dirty - gone + Upward(after, ParentOf(nodes, i)))
  {
    DeleteMarks(nodes, dirty, i);
    var after, keys' := nodes - Subtree(nodes, i), keys - Subtree(nodes, i);
    var d := dirty - Subtree(nodes, i) + Upward(after, ParentOf(nodes, i));
    assert forall r :: r in after ==> !Below(nodes, r, i);
    hide Tree, Named, Upward, SortedEntries, ChildKeys, Closed, Below;
    forall r | r in after && after[r].kind.Dir? && r !in d ensures Hashed(after, keys', r) {
      DeleteChildren(nodes, keys, i, r);
      assert Hashed(nodes, keys, r);
    }
  }
}
