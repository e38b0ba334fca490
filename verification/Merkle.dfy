/** The Merkle tree over the inodes: each clean directory's body lists its children's keys, the
    bottom-up pass that restores this after changes, and that the root's key determines the whole
    tree (janus-vfs/src/db.rs, directory.rs, vfs/config.rs). */
module Merkle {
  import opened Wrappers
  import opened Trees
  import opened Entities

  type Keys = map<InodeId, EntityKey>

  ghost predicate UniqueIds(keys: Keys) {
    forall i, j :: i in keys && j in keys && keys[i].id == keys[j].id ==> i == j
  }

  /** What the rows of the table say about their entities, by checks and by how every caller fills them. */
  ghost predicate Keyed(nodes: Nodes, keys: Keys) {
    && keys.Keys == nodes.Keys && UniqueIds(keys)
    && (forall i :: i in nodes ==> KindOf(keys[i]) == nodes[i].kind && NameOf(keys[i]) == nodes[i].name)
    && (forall i :: i in nodes && i != RootInode ==> i == InodeOf(keys[i].id))
  }

  /** `SELECT entity_id, entity_rev FROM vfs WHERE parent = ?` */
  function ChildKeys(nodes: Nodes, keys: Keys, p: InodeId): set<EntityKey> {
    set c | c in nodes && c in keys && ChildOf(nodes, p, c) :: keys[c]
  }

  lemma ChildKeysDistinct(nodes: Nodes, keys: Keys, p: InodeId)
    requires UniqueIds(keys)
    ensures DistinctIds(ChildKeys(nodes, keys, p))
  {
  }

  /** The directory's body is the sorted listing of its children. */
  ghost predicate Hashed(nodes: Nodes, keys: Keys, p: InodeId)
    requires p in keys
  {
    DistinctIds(ChildKeys(nodes, keys, p)) && EntriesOf(keys[p]) == SortedEntries(ChildKeys(nodes, keys, p))
  }

  /** Every directory whose body differs from its children's keys is dirty. */
  ghost predicate Tracked(nodes: Nodes, keys: Keys, dirty: set<InodeId>)
    requires keys.Keys == nodes.Keys
  {
    forall p :: p in nodes && nodes[p].kind.Dir? && p !in dirty ==> Hashed(nodes, keys, p)
  }

  predicate SameChildren(before: Nodes, keys: Keys, after: Nodes, keys': Keys, p: InodeId) {
    p in keys && p in keys' && keys[p] == keys'[p] && ChildKeys(before, keys, p) == ChildKeys(after, keys', p)
  }

  // ---------- the bottom-up pass ----------

  /** `update_directory`: the same directory entity with the present children as its body. */
  function Rehashed(key: EntityKey, children: set<EntityKey>): EntityKey
    requires DistinctIds(children)
  {
    EntityKey(key.id, DirRevision(key.revision.meta, SortedEntries(children)))
  }

  /** The pass rewrites exactly the dirty directories, each over its rewritten children. */
  ghost predicate Snapshot(nodes: Nodes, before: Keys, dirty: set<InodeId>, after: Keys) {
    && before.Keys == nodes.Keys && after.Keys == nodes.Keys
    && (forall i :: i in nodes && i !in dirty ==> after[i] == before[i])
    && (forall i :: i in nodes && i in dirty ==> Rewritten(nodes, before, after, i))
  }

  ghost predicate Rewritten(nodes: Nodes, before: Keys, after: Keys, i: InodeId)
    requires i in before && i in after
  {
    DistinctIds(ChildKeys(nodes, after, i)) && after[i] == Rehashed(before[i], ChildKeys(nodes, after, i))
  }

  /** The listing holds exactly the children's keys, each once, ascending by id. */
  ghost predicate ListsChildren(nodes: Nodes, keys: Keys, p: InodeId, listing: seq<EntityKey>) {
    && (forall c :: c in nodes && c in keys && nodes[c].parent == Some(p) ==> keys[c] in listing)
    && (forall k :: k in listing ==> exists c :: c in nodes && c in keys && nodes[c].parent == Some(p) && keys[c] == k)
    && (forall i, j :: 0 <= i < j < |listing| ==> listing[i].id.uuid < listing[j].id.uuid)
  }

  /** The directories in `above` have their bodies replaced by listings of their present children, and
      nothing else of them; all other entities are as before. */
  ghost predicate Rebodied(nodes: Nodes, before: Keys, above: set<InodeId>, after: Keys) {
    && before.Keys == nodes.Keys && after.Keys == nodes.Keys
    && (forall i :: i in nodes && i !in above ==> after[i] == before[i])
    && (forall i :: i in nodes && i in above ==>
          && after[i].id == before[i].id && after[i].revision.DirRevision?
          && after[i].revision.meta == before[i].revision.meta
          && ListsChildren(nodes, after, i, after[i].revision.entries))
  }

  lemma ListingListsChildren(nodes: Nodes, keys: Keys, p: InodeId)
    requires keys.Keys == nodes.Keys && DistinctIds(ChildKeys(nodes, keys, p))
    ensures ListsChildren(nodes, keys, p, SortedEntries(ChildKeys(nodes, keys, p)))
  {
    SortedAscends(ChildKeys(nodes, keys, p));
    forall c | c in nodes && nodes[c].parent == Some(p) ensures keys[c] in ChildKeys(nodes, keys, p) {
      assert ChildOf(nodes, p, c);
    }
  }

  /** What the pass does, without naming how a directory is rewritten. */
  lemma SnapshotRebodies(nodes: Nodes, before: Keys, dirty: set<InodeId>, after: Keys)
    requires Snapshot(nodes, before, dirty, after)
    ensures Rebodied(nodes, before, dirty, after)
  {
    hide ChildKeys, SortedEntries, DistinctIds, ListsChildren;
    forall i | i in nodes && i in dirty ensures ListsChildren(nodes, after, i, EntriesOf(after[i])) {
      assert Rewritten(nodes, before, after, i);
      ListingListsChildren(nodes, after, i);
    }
  }

  /** The pass has one result, whatever order it takes the directories in. */
  lemma {:induction false} SnapshotUnique(nodes: Nodes, before: Keys, dirty: set<InodeId>, a: Keys, b: Keys, i: InodeId)
    requires Tree(nodes) && Snapshot(nodes, before, dirty, a) && Snapshot(nodes, before, dirty, b) && i in nodes
    ensures a[i] == b[i]
    decreases Subtree(nodes, i)
  {
    hide Tree, ChildKeys, SortedEntries, Subtree;
    if i in dirty {
      forall c | ChildOf(nodes, i, c) ensures a[c] == b[c] {
        ChildSubtreeSmaller(nodes, i, c);
        SnapshotUnique(nodes, before, dirty, a, b, c);
      }
      SameChildKeys(nodes, a, b, i);
      assert Rewritten(nodes, before, a, i) && Rewritten(nodes, before, b, i);
    }
  }

  lemma SameChildKeys(nodes: Nodes, a: Keys, b: Keys, i: InodeId)
    requires a.Keys == nodes.Keys && b.Keys == nodes.Keys
    requires forall c :: ChildOf(nodes, i, c) ==> a[c] == b[c]
    ensures ChildKeys(nodes, a, i) == ChildKeys(nodes, b, i)
  {
    forall k ensures k in ChildKeys(nodes, a, i) <==> k in ChildKeys(nodes, b, i) {
      if k in ChildKeys(nodes, a, i) {
        var c :| c in nodes && c in a && ChildOf(nodes, i, c) && a[c] == k;
        assert b[c] == k;
      }
      if k in ChildKeys(nodes, b, i) {
        var c :| c in nodes && c in b && ChildOf(nodes, i, c) && b[c] == k;
        assert a[c] == k;
      }
    }
  }

  /** When no directory's body is out of date the pass changes no key. */
  lemma SnapshotOfHashed(nodes: Nodes, keys: Keys, dirty: set<InodeId>, after: Keys)
    requires Tree(nodes) && keys.Keys == nodes.Keys && Snapshot(nodes, keys, dirty, after)
    requires forall i :: i in dirty ==> i in nodes && KindOf(keys[i]).Dir? && Hashed(nodes, keys, i)
    ensures after == keys
  {
    hide Tree, Hashed;
    forall i | i in nodes && i in dirty ensures Rewritten(nodes, keys, keys, i) {
      HashedIsRewritten(nodes, keys, i);
    }
    assert Snapshot(nodes, keys, dirty, keys);
    forall i | i in nodes ensures after[i] == keys[i] {
      SnapshotUnique(nodes, keys, dirty, after, keys, i);
    }
  }

  lemma HashedIsRewritten(nodes: Nodes, keys: Keys, i: InodeId)
    requires i in keys && KindOf(keys[i]).Dir? && Hashed(nodes, keys, i)
    ensures Rewritten(nodes, keys, keys, i)
  {
    hide SortedEntries, ChildKeys;
  }

  // ---------- the root key determines the tree ----------

  ghost predicate Lists(entries: seq<EntityKey>, keys: set<EntityKey>) {
    |entries| == |keys| && forall k :: k in entries <==> k in keys
  }

  /** The table is the unfolding of its root's entity: each directory holds exactly the children its
      body lists, each once. */
  ghost predicate Unfolded(nodes: Nodes, keys: Keys) {
    && Tree(nodes) && Named(nodes) && Keyed(nodes, keys)
    && (forall p :: p in nodes && nodes[p].kind.Dir? ==> Lists(EntriesOf(keys[p]), ChildKeys(nodes, keys, p)))
  }

  lemma HashedLists(nodes: Nodes, keys: Keys, p: InodeId)
    requires p in keys && Hashed(nodes, keys, p)
    ensures Lists(EntriesOf(keys[p]), ChildKeys(nodes, keys, p))
  {
    hide ChildKeys;
  }

  /** A table with every directory up to date unfolds its root's entity. */
  lemma CommittedIsUnfolded(nodes: Nodes, keys: Keys)
    requires Tree(nodes) && Named(nodes) && Keyed(nodes, keys) && Tracked(nodes, keys, {})
    ensures Unfolded(nodes, keys)
  {
    hide Tree, Named, Hashed, ChildKeys;
    forall p | p in nodes && nodes[p].kind.Dir? ensures Lists(EntriesOf(keys[p]), ChildKeys(nodes, keys, p)) {
      HashedLists(nodes, keys, p);
    }
  }

  lemma KeyFoundUnder(nodes: Nodes, keys: Keys, p: InodeId, k: EntityKey) returns (c: InodeId)
    requires Keyed(nodes, keys) && Tree(nodes) && k in ChildKeys(nodes, keys, p)
    ensures ChildOf(nodes, p, c) && keys[c] == k && c == InodeOf(k.id) && c != RootInode
  {
    c :| c in nodes && c in keys && ChildOf(nodes, p, c) && keys[c] == k;
    assert Parented(nodes, RootInode);
  }

  lemma {:induction false} RootKeyReaches(n: Nodes, k: Keys, m: Nodes, l: Keys, i: InodeId)
    requires Unfolded(n, k) && Unfolded(m, l) && k[RootInode] == l[RootInode] && i in n
    ensures i in m && m[i] == n[i] && l[i] == k[i]
    decreases Depth(n, i)
  {
    if i == RootInode {
      assert Parented(n, i) && Parented(m, i);
    } else {
      DepthOfParent(n, i);
      var p := ParentOf(n, i);
      RootKeyReaches(n, k, m, l, p);
      assert ChildOf(n, p, i);
      assert k[i] in ChildKeys(n, k, p);
      assert k[i] in EntriesOf(k[p]);
      var c := KeyFoundUnder(m, l, p, k[i]);
    }
  }

  /** A root key has one unfolding: equal root keys mean equal trees, entity by entity. */
  lemma RootKeyDetermines(n: Nodes, k: Keys, m: Nodes, l: Keys)
    requires Unfolded(n, k) && Unfolded(m, l) && k[RootInode] == l[RootInode]
    ensures n == m && k == l
  {
    assert k.Keys == n.Keys && l.Keys == m.Keys;
    hide Unfolded;
    forall i | i in n ensures i in m && m[i] == n[i] && l[i] == k[i] { RootKeyReaches(n, k, m, l, i); }
    forall i | i in m ensures i in n { RootKeyReaches(m, l, n, k, i); }
  }
}
