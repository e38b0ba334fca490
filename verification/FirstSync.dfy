/** The first sync of a new volume, and states that its transactions reach from there
    (janus-vfs/src/vfs/mod.rs 617-755, sync/pull.rs). */
module FirstSync {
  import opened Wrappers
  import opened Trees
  import opened Marks
  import opened Entities
  import opened Merkle
  import opened TableSteps
  import opened ChangeLog
  import opened Statements
  import opened VfsTable
  import opened Checkout
  import opened DirtyPass
  import opened Heads
  import opened Transactions

  // ---------- what `create_new` uploads ----------

  function FirstCommit(root: Meta, created: int): Commit {
    Commit(NewDir(root), Zeroed, 0, created)
  }

  /** The configuration that lists the first commit alone, under `head`. */
  function FirstConfig(head: Head, root: Meta, created: int): Config {
    Config(head.name, created, true, map[head := HashOf(FirstCommit(root, created))])
  }

  function RootNodes(root: Meta): Nodes {
    map[RootInode := RootRow(NewDir(root))]
  }

  function RootKeys(root: Meta): Keys {
    map[RootInode := NewDir(root)]
  }

  lemma RootIsCommitted(root: Meta)
    requires ValidName(root.name)
    ensures CommittedFrom(NewDir(root), RootNodes(root), RootKeys(root))
    ensures UnfoldsFrom(NewDir(root), RootNodes(root), RootKeys(root))
  {
    RootOnlyTree(NewDir(root));
    RootOnlyConsistent(NewDir(root));
    assert Tracked(RootNodes(root), RootKeys(root), {});
    CommittedIsUnfolded(RootNodes(root), RootKeys(root));
  }

  /** No other tree has the empty root's key. */
  lemma OnlyRootCommitted(root: Meta, n: Nodes, k: Keys)
    requires ValidName(root.name) && CommittedFrom(NewDir(root), n, k)
    ensures n == RootNodes(root) && k == RootKeys(root)
  {
    RootIsCommitted(root);
    CommittedIsUnfolded(n, k);
    RootKeyDetermines(n, k, RootNodes(root), RootKeys(root));
  }

  lemma RootOnlyConsistent(key: EntityKey)
    requires EntriesOf(key) == [] && KindOf(key).Dir?
    ensures Consistent(map[RootInode := RootRow(key)], map[RootInode := key], {})
  {
    assert ChildKeys(map[RootInode := RootRow(key)], map[RootInode := key], RootInode) == {};
  }

  /** A new volume pulls what `create_new` has uploaded: the root's entity, the first commit, the
      configuration. It shows the empty root, its head is at the first commit, and it is settled. */
  method Open(head: Head, readOnly: bool, root: Meta, created: int) returns (v: Volume)
    requires ValidName(root.name)
    ensures fresh(v) && fresh(v.table) && v.Settled() && v.readOnly == (head.Tag? || readOnly)
    ensures v.branch == if head.Branch? then Some(head.name) else None
    ensures v.table.nodes == RootNodes(root) && v.table.keys == RootKeys(root)
    ensures var first := HashOf(FirstCommit(root, created));
            && v.heads == map[head.name := HeadRow(head.Branch?, first)]
            && v.config == Some(Config(head.name, created, true, map[head := first]))
  {
    hide Consistent, Agree, Fit, Registered, Logged, ViewsOf, HandlesFit, BlobsKnown, CommitsFit, HeadsFit, AtHead;
    hide Closed, ValidName, Known, ConfigFits, UnfoldsFrom, CommittedFrom, TakenHeads, TreeFollows, CurrentCommit;
    hide SameHeads, RootNodes, RootKeys, Upward;
    v := Received(head, readOnly, root, created);
    RootIsCommitted(root);
    assert CurrentCommit(v.heads, head) == None by { NoCurrent(v.heads, head); }
    var taken := v.PullConfig(FirstConfig(head, root, created), head, created);
    FirstTaken(head, root, created, v.config, v.heads, v.table.nodes, v.table.keys, created);
  }

  /** The new volume before it pulls the configuration. */
  method Received(head: Head, readOnly: bool, root: Meta, created: int) returns (v: Volume)
    requires ValidName(root.name)
    ensures fresh(v) && fresh(v.table) && v.Settled() && v.readOnly == (head.Tag? || readOnly)
    ensures v.branch == if head.Branch? then Some(head.name) else None
    ensures v.table.handles == map[] && v.heads == map[] && v.config == None && v.table.keys == map[]
    ensures NewDir(root) in v.table.entities && HashOf(FirstCommit(root, created)) in v.commits
  {
    hide Consistent, Agree, Fit, Registered, Logged, ViewsOf, HandlesFit, BlobsKnown, CommitsFit, HeadsFit, AtHead;
    hide Closed, ValidName, Known, ConfigFits;
    v := new Volume(if head.Branch? then Some(head.name) else None, readOnly);
    NewDirKnown(root, v.table.entities, v.table.blobs);
    var received := v.ReceiveEntity(NewDir(root), created);
    received := v.ReceiveCommit(FirstCommit(root, created), created);
  }

  lemma FirstTaken(head: Head, root: Meta, created: int, config: Option<Config>, heads: Heads, nodes: Nodes, keys: Keys,
                   now: int)
    requires ValidName(root.name) && TakenHeads(FirstConfig(head, root, created), head, config, heads, keys, now)
    requires TreeFollows(FirstConfig(head, root, created), head, map[], map[], map[], nodes, keys)
    ensures nodes == RootNodes(root) && keys == RootKeys(root)
    ensures config == Some(FirstConfig(head, root, created))
    ensures heads == map[head.name := HeadRow(head.Branch?, HashOf(FirstCommit(root, created)))]
  {
    hide UnfoldsFrom, CommittedFrom, ValidName, HeadsFrom;
    RootIsCommitted(root);
    OnlyRootCommitted(root, nodes, keys);
    var listed := FirstConfig(head, root, created).heads;
    forall n | n in heads ensures n == head.name { HeadListed(listed, heads, n); }
    ListedHead(listed, heads, head);
  }

  lemma NewDirKnown(meta: Meta, entities: set<EntityKey>, blobs: set<nat>)
    requires ValidName(meta.name)
    ensures Known(NewDir(meta), entities, blobs)
  {
  }

  // ---------- the first edit ----------

  /** The commit that follows the first one when the root's entity is `key`. */
  function SecondCommit(root: Meta, created: int, key: EntityKey, now: int): Commit {
    Commit(key, HashOf(FirstCommit(root, created)), 1, now)
  }

  /** A directory is made in a new volume: the head moves to a commit with count 1 behind the pulled one. */
  method FirstEdit(branch: string, root: Meta, created: int, child: Meta, now: int) returns (v: Volume)
    requires ValidName(root.name) && ValidName(child.name) && child.id != root.id
    ensures fresh(v) && fresh(v.table) && v.Settled() && v.config.Some? && v.branch == Some(branch) && !v.readOnly
    ensures v.table.nodes == RootNodes(root)[InodeOf(child.id) := NewInode(RootInode, NewDir(child))]
    ensures RootInode in v.table.keys
    ensures v.table.keys[RootInode] == EntityKey(root.id, DirRevision(root, [NewDir(child)]))
    ensures AtHead(v.heads, branch, v.table.keys)
    ensures CurrentCommit(v.heads, Branch(branch)) == Some(HashOf(SecondCommit(root, created, v.table.keys[RootInode], now)))
    ensures SameHeads(v.config.value.heads, v.heads) && v.config.value.lastModified == now && !v.config.value.synced
  {
    hide Consistent, Agree, Fit, Registered, Logged, ViewsOf, HandlesFit, BlobsKnown, CommitsFit, HeadsFit;
    hide Closed, ValidName, CanInsert, Rebodied, Upward, SameHeads;
    v := Open(Branch(branch), false, root, created);
    FirstChildFits(root, child, v.table.entities + {NewDir(child)});
    var made := v.CreateDir(child, RootInode, now);
    RootIsAbove(v.table.nodes);
    NewNotAbove(v.table.Contents(), InodeOf(child.id), RootInode);
    FirstChildListed(root, child, v.table.nodes, Upward(v.table.nodes, RootInode), v.table.keys);
  }

  lemma FirstChildFits(root: Meta, child: Meta, entities: set<EntityKey>)
    requires ValidName(child.name) && child.id != root.id && NewDir(child) in entities
    ensures CanInsert(RootNodes(root), RootKeys(root), Dir, RootInode, NewDir(child), entities)
  {
    hide ValidName;
  }

  lemma RootIsAbove(nodes: Nodes)
    requires RootInode in nodes
    ensures RootInode in Upward(nodes, RootInode)
  {
    BelowSelf(nodes, RootInode);
  }

  lemma FirstChildListed(root: Meta, child: Meta, nodes: Nodes, marked: set<InodeId>, keys: Keys)
    requires nodes == RootNodes(root)[InodeOf(child.id) := NewInode(RootInode, NewDir(child))]
    requires Rebodied(nodes, RootKeys(root)[InodeOf(child.id) := NewDir(child)], marked, keys)
    requires RootInode in marked && InodeOf(child.id) !in marked
    ensures keys.Keys == nodes.Keys && ChildOf(nodes, RootInode, InodeOf(child.id))
    ensures keys[RootInode] == EntityKey(root.id, DirRevision(root, [NewDir(child)]))
  {
    var entries := keys[RootInode].revision.entries;
    assert ListsChildren(nodes, keys, RootInode, entries);
    assert nodes[InodeOf(child.id)].parent == Some(RootInode) && keys[InodeOf(child.id)] == NewDir(child);
    forall i | 0 <= i < |entries| ensures entries[i] == NewDir(child) {
      assert entries[i] in entries;
    }
    assert !(|entries| > 1 && entries[0].id.uuid < entries[1].id.uuid);
    assert entries == [NewDir(child)];
  }

  // ---------- states on the failing sides ----------

  /** An update of that root without entries is accepted, and leaves a configured volume unsettled: its head
      is at the root's key, which lists no child. */
  method StaleBodyReached(branch: string, root: Meta, created: int, child: Meta, now: int) returns (v: Volume)
    requires ValidName(root.name) && ValidName(child.name) && child.id != root.id
    ensures fresh(v) && fresh(v.table) && v.Quiet() && !v.Settled() && v.config.Some? && v.branch == Some(branch)
    ensures AtHead(v.heads, branch, v.table.keys) && InodeOf(child.id) in v.table.nodes
  {
    hide Consistent, Agree, Fit, Registered, Logged, ViewsOf, HandlesFit, CanUpdate, BlobsKnown, CommitsFit, HeadsFit;
    hide Closed, ValidName, Known, AtHead, SameHeads, ConfigFits, HeadMoves;
    v := FirstEdit(branch, root, created, child, now);
    SettledTracked(v.table.nodes, v.table.keys);
    ListsItsChild(v.table.nodes, v.table.keys, RootInode, InodeOf(child.id));
    NewDirKnown(root, v.table.entities, v.table.blobs);
    RootFits(root, v.table.nodes, v.table.keys, v.table.entities + {NewDir(root)});
    var updated := v.Update(RootInode, NewDir(root), now);
  }

  lemma RootFits(root: Meta, nodes: Nodes, keys: Keys, entities: set<EntityKey>)
    requires keys.Keys == nodes.Keys && RootInode in nodes && nodes[RootInode] == RootRow(NewDir(root))
    requires keys[RootInode].id == root.id && ValidName(root.name) && NewDir(root) in entities
    ensures CanUpdate(nodes, keys, RootInode, NewDir(root), entities)
  {
    hide ValidName;
  }

  lemma SettledTracked(nodes: Nodes, keys: Keys)
    requires keys.Keys == nodes.Keys && Consistent(nodes, keys, {})
    ensures Tracked(nodes, keys, {})
  {
  }

  /** On a mounted tag, where every other edit is refused, a file is made: the tree is no longer the tag's. */
  method ReadOnlyFileMade(tag: string, root: Meta, created: int, file: Meta, now: int) returns (v: Volume)
    requires ValidName(root.name) && ValidName(file.name) && file.id != root.id
    ensures fresh(v) && fresh(v.table) && v.Settled() && v.readOnly
    ensures InodeOf(file.id) in v.table.nodes && RootInode in v.table.keys
    ensures CurrentCommit(v.heads, Tag(tag)) == Some(HashOf(FirstCommit(root, created)))
    ensures v.table.keys[RootInode] != FirstCommit(root, created).entity
  {
    hide Consistent, Agree, Fit, Registered, Logged, ViewsOf, HandlesFit, BlobsKnown, CommitsFit, HeadsFit;
    hide Closed, ValidName, CanInsert, Rebodied, Upward, SameHeads, UnfoldsFrom;
    v := Open(Tag(tag), true, root, created);
    FirstFileFits(root, file, v.table.entities + {NewFile(file)});
    var made := v.CreateFile(file, RootInode, now);
    SettledUnfolds(v.table.Contents());
    RootIsCommitted(root);
    RootKeyTells(RootNodes(root), RootKeys(root), v.table.nodes, v.table.keys);
  }

  lemma FirstFileFits(root: Meta, file: Meta, entities: set<EntityKey>)
    requires ValidName(file.name) && file.id != root.id && NewFile(file) in entities
    ensures CanInsert(RootNodes(root), RootKeys(root), File, RootInode, NewFile(file), entities)
  {
    hide ValidName;
  }
}
