/** The file tree's tables and the counted tables are one database: a directory entry holds its entity, a
    head its commit, and what the counts collect are rows that nothing refers to
    (janus-vfs/migrations/202605201500_initial.sql 100-160, 217-365, 824-863). */
module Twins {
  import opened Wrappers
  import opened Trees
  import opened Entities
  import opened Merkle
  import opened TableSteps
  import opened ChangeLog
  import opened Statements
  import opened VfsTable
  import opened Heads
  import R = RefTables
  import S = RefStore

  // ---------- one row, two views ----------

  /** The numbers under which the counted tables know inodes, entities and commits. */
  datatype Names = Names(inode: InodeId -> nat, entity: EntityKey -> nat, commit: CommitId -> nat)

  ghost predicate OwnNames(names: Names) {
    && (forall i, j :: names.inode(i) == names.inode(j) ==> i == j)
    && (forall i, j :: names.entity(i) == names.entity(j) ==> i == j)
    && (forall i, j :: names.commit(i) == names.commit(j) ==> i == j)
  }

  function EntityNode(names: Names, k: EntityKey): R.Node {
    R.Node(R.Entity(KindOf(k).Dir?), names.entity(k))
  }

  function CommitNode(names: Names, c: CommitId): R.Node {
    R.Node(R.Table.Commit, names.commit(c))
  }

  function BlobNode(b: nat): R.Node {
    R.Node(R.Blob, b)
  }

  function InodeHolder(names: Names, i: InodeId): R.Holder {
    R.InodeRow(names.inode(i))
  }

  function EntityNodes(names: Names, s: seq<EntityKey>): (r: seq<R.Node>)
    ensures |r| == |s| && forall i :: 0 <= i < |r| ==> r[i] == EntityNode(names, s[i])
  {
    seq(|s|, i requires 0 <= i < |s| => EntityNode(names, s[i]))
  }

  /** What an entity's `entity_references` rows point at. */
  function RefsOf(names: Names, k: EntityKey): seq<R.Node> {
    if k.revision.FileRevision? then [BlobNode(k.revision.blob)] else EntityNodes(names, EntriesOf(k))
  }

  /** Directory entries and heads are the holders of the counted tables. */
  ghost predicate SameHolders(names: Names, heads: Heads, keys: Keys, holders: R.Holders) {
    && (forall i :: i in keys ==>
          InodeHolder(names, i) in holders && holders[InodeHolder(names, i)] == EntityNode(names, keys[i]))
    && (forall h :: h in holders && h.InodeRow? ==> exists i :: i in keys && InodeHolder(names, i) == h)
    && (forall n :: n in heads ==>
          R.Holder.HeadRow(n) in holders && holders[R.Holder.HeadRow(n)] == CommitNode(names, heads[n].commit))
    && (forall h :: h in holders && h.HeadRow? ==> h.name in heads)
  }

  ghost predicate RowOf(rows: R.Rows, n: R.Node, refs: seq<R.Node>, synced: bool) {
    n in rows && rows[n].refs == refs && (rows[n].mode.Synced? <==> synced) && (rows[n].mode.Local? <==> !synced)
  }

  /** The same entities, commits and blobs are stored, with the same references, and the same are synced. */
  ghost predicate SameRows(names: Names, s: Stock, rows: R.Rows) {
    && (forall k :: if k in s.entities then RowOf(rows, EntityNode(names, k), RefsOf(names, k), k in s.synced)
                    else EntityNode(names, k) !in rows)
    && (forall c :: if c in s.commits
                    then c.HashOf? && RowOf(rows, CommitNode(names, c), [EntityNode(names, c.commit.entity)], c in s.syncedCommits)
                    else CommitNode(names, c) !in rows)
    && (forall b :: if b in s.blobs then BlobNode(b) in rows && (rows[BlobNode(b)].mode.Local? <==> b !in s.syncedBlobs)
                    else BlobNode(b) !in rows)
    && s.synced <= s.entities && s.syncedCommits <= s.commits && s.syncedBlobs <= s.blobs
  }

  // ---------- what exact counts mean for the tree ----------

  /** The foreign keys of the tree follow from the counts. */
  lemma CountsFit(names: Names, s: Stock, heads: Heads, keys: Keys, rows: R.Rows, holders: R.Holders)
    requires SameHolders(names, heads, keys, holders) && SameRows(names, s, rows)
    requires R.Counted(rows, holders, multiset{})
    ensures forall i :: i in keys ==> keys[i] in s.entities
    ensures forall k, e :: k in s.entities && e in EntriesOf(k) ==> e in s.entities
    ensures BlobsKnown(s.entities, s.blobs) && HeadsFit(heads, s.commits)
    ensures forall c :: c in s.commits ==> c.HashOf? && c.commit.entity in s.entities
  {
    R.CountedIsClosed(rows, holders, multiset{});
    hide R.Counted;
    forall i | i in keys ensures keys[i] in s.entities {
      assert holders[InodeHolder(names, i)] in rows;
    }
    forall k, e | k in s.entities && e in EntriesOf(k) ensures e in s.entities { EntryIsRef(names, s, rows, k, e); }
    forall k | k in s.entities && k.revision.FileRevision? ensures k.revision.blob in s.blobs {
      assert RowOf(rows, EntityNode(names, k), RefsOf(names, k), k in s.synced);
      assert RefsOf(names, k)[0] in R.Out(rows[EntityNode(names, k)]);
    }
    forall n | n in heads ensures heads[n].commit in s.commits {
      assert holders[R.Holder.HeadRow(n)] in rows;
    }
    forall c | c in s.commits ensures c.HashOf? && c.commit.entity in s.entities {
      assert RowOf(rows, CommitNode(names, c), [EntityNode(names, c.commit.entity)], c in s.syncedCommits);
      assert [EntityNode(names, c.commit.entity)][0] in R.Out(rows[CommitNode(names, c)]);
    }
  }

  lemma EntryIsRef(names: Names, s: Stock, rows: R.Rows, k: EntityKey, e: EntityKey)
    requires SameRows(names, s, rows) && k in s.entities && e in EntriesOf(k)
    requires forall n, t :: n in rows && t in R.Out(rows[n]) ==> t in rows
    ensures e in s.entities
  {
    assert RowOf(rows, EntityNode(names, k), RefsOf(names, k), k in s.synced);
    var i :| 0 <= i < |EntriesOf(k)| && EntriesOf(k)[i] == e;
    assert RefsOf(names, k)[i] == EntityNode(names, e);
    assert RefsOf(names, k)[i] in R.Out(rows[EntityNode(names, k)]);
  }

  /** What is left of the rows. */
  function Left(names: Names, s: Stock, rows: R.Rows): Stock {
    s.(commits := (set c | c in s.commits && CommitNode(names, c) in rows),
       entities := (set k | k in s.entities && EntityNode(names, k) in rows),
       blobs := (set b | b in s.blobs && BlobNode(b) in rows))
  }

  /** What the counts collect are local rows to which nothing that is left refers. */
  lemma SweptIsCollected(names: Names, s: Stock, heads: Heads, keys: Keys, rows: R.Rows, after: R.Rows, holders: R.Holders)
    requires SameHolders(names, heads, keys, holders) && SameRows(names, s, rows)
    requires R.Swept(rows, after) && R.Counted(after, holders, multiset{})
    ensures SameRows(names, Left(names, s, after), after)
    ensures Collected(s, Left(names, s, after), heads, keys)
  {
    var left := Left(names, s, after);
    SweptRows(names, s, rows, after);
    CountsFit(names, left, heads, keys, after, holders);
    hide SameHolders, R.Counted, SameRows;
    forall c | c in s.commits && c !in left.commits ensures CommitUnused(left, heads, c) {
    }
    forall k | k in s.entities && k !in left.entities ensures EntityUnused(left, keys, k) {
    }
    forall b | b in s.blobs && b !in left.blobs ensures BlobUnused(left, b) {
    }
  }

  lemma SweptRows(names: Names, s: Stock, rows: R.Rows, after: R.Rows)
    requires SameRows(names, s, rows) && R.Swept(rows, after)
    ensures SameRows(names, Left(names, s, after), after)
    ensures var left := Left(names, s, after);
            left.synced <= left.entities && left.syncedCommits <= left.commits && left.syncedBlobs <= left.blobs
  {
    hide RefsOf;
    var left := Left(names, s, after);
    forall k ensures if k in left.entities then RowOf(after, EntityNode(names, k), RefsOf(names, k), k in left.synced)
                     else EntityNode(names, k) !in after {
      assert k in s.entities ==> RowOf(rows, EntityNode(names, k), RefsOf(names, k), k in s.synced);
    }
    forall c | c in s.commits
      ensures c.HashOf?
      ensures RowOf(rows, CommitNode(names, c), [EntityNode(names, c.commit.entity)], c in s.syncedCommits) {
    }
  }

  // ---------- how single changes move both ----------

  lemma RecountSame(names: Names, s: Stock, rows: R.Rows, n: R.Node, c: nat)
    requires SameRows(names, s, rows) && n in rows
    ensures SameRows(names, s, R.WithCount(rows, n, c))
  {
    hide RefsOf;
    var more := R.WithCount(rows, n, c);
    forall k | k in s.entities ensures RowOf(more, EntityNode(names, k), RefsOf(names, k), k in s.synced) {
      assert RowOf(rows, EntityNode(names, k), RefsOf(names, k), k in s.synced);
    }
    forall c | c in s.commits
      ensures c.HashOf?
      ensures RowOf(more, CommitNode(names, c), [EntityNode(names, c.commit.entity)], c in s.syncedCommits) {
    }
  }

  lemma HolderSet(names: Names, heads: Heads, keys: Keys, holders: R.Holders, i: InodeId, key: EntityKey)
    requires OwnNames(names) && SameHolders(names, heads, keys, holders)
    ensures SameHolders(names, heads, keys[i := key], holders[InodeHolder(names, i) := EntityNode(names, key)])
    ensures i in keys <==> InodeHolder(names, i) in holders
  {
  }

  lemma HoldersGone(names: Names, heads: Heads, keys: Keys, holders: R.Holders, gone: set<InodeId>, hs: set<R.Holder>)
    requires OwnNames(names) && SameHolders(names, heads, keys, holders)
    requires forall h :: h in hs <==> exists i :: i in gone && InodeHolder(names, i) == h
    ensures SameHolders(names, heads, keys - gone, holders - hs)
  {
  }

  lemma HeadSet(names: Names, heads: Heads, keys: Keys, holders: R.Holders, n: string, row: HeadRow)
    requires SameHolders(names, heads, keys, holders)
    ensures SameHolders(names, heads[n := row], keys, holders[R.Holder.HeadRow(n) := CommitNode(names, row.commit)])
    ensures SameHolders(names, heads - {n}, keys, holders - {R.Holder.HeadRow(n)})
  {
  }

  lemma EntityThere(names: Names, s: Stock, rows: R.Rows, k: EntityKey)
    requires SameRows(names, s, rows)
    ensures k in s.entities <==> EntityNode(names, k) in rows
    ensures k in s.entities ==> (rows[EntityNode(names, k)].mode.Local? <==> k !in s.synced)
  {
    assert k in s.entities ==> RowOf(rows, EntityNode(names, k), RefsOf(names, k), k in s.synced);
  }

  class Twin {
    const table: Table
    const store: S.Store
    const names: Names
    var commits: set<CommitId>
    var syncedCommits: set<CommitId>
    var heads: Heads

    function Rows(): Stock
      reads this, table
    {
      Stock(commits, syncedCommits, table.entities, table.synced, table.blobs, table.syncedBlobs)
    }

    ghost predicate Valid()
      reads this, table, store
    {
      && OwnNames(names) && table.Valid() && table.keys.Keys == table.nodes.Keys && store.Valid()
      && SameHolders(names, heads, table.keys, store.holders) && SameRows(names, Rows(), store.rows)
    }

    constructor (names: Names)
      requires OwnNames(names)
      ensures Valid() && fresh(table) && fresh(store) && this.names == names && heads == map[] && commits == {}
    {
      hide Fit, Logged, ViewsOf, HandlesFit, R.Counted, R.Ordered, R.ChunksLogged, SameHolders, SameRows, Registered;
      hide BlobsKnown, OwnNames;
      EmptyTwins(names);
      this.names := names;
      table := new Table();
      store := new S.Store();
      commits, syncedCommits, heads := {}, {}, map[];
    }

    /** The triggers have collected rows of `before`: the tree's tables have lost the same. */
    method Shrink(ghost before: R.Rows)
      requires OwnNames(names) && table.Valid() && table.keys.Keys == table.nodes.Keys && store.Valid()
      requires SameHolders(names, heads, table.keys, store.holders)
      requires SameRows(names, Rows(), before) && R.Swept(before, store.rows)
      modifies this`commits, table`entities, table`blobs
      ensures Valid() && Collected(old(Rows()), Rows(), heads, table.keys)
    {
      hide Fit, Logged, ViewsOf, HandlesFit, R.Counted, R.Ordered, R.ChunksLogged, SameHolders, SameRows, R.Swept;
      hide Collected;
      hide ValidName;
      SweptIsCollected(names, Rows(), heads, table.keys, before, store.rows, store.holders);
      var left := Left(names, Rows(), store.rows);
      CountsFit(names, left, heads, table.keys, store.rows, store.holders);
      LeftSynced(names, left, store.rows);
      commits, table.entities, table.blobs := left.commits, left.entities, left.blobs;
    }

    /** `UPDATE vfs SET entity_id, entity_rev`: the new entity is counted, the old one given back, and what
        then has no reference goes from both views. */
    method Update(i: InodeId, key: EntityKey) returns (r: Result<(), TableError>)
      requires Valid()
      modifies this`commits, table, store
      ensures Valid()
      ensures r.Ok? <==> old(CanUpdate(table.nodes, table.keys, i, key, table.entities))
      ensures r.Ok? ==> table.nodes == Renamed(old(table.nodes), i, NameOf(key)) && table.keys == old(table.keys)[i := key]
      ensures r.Ok? ==> Collected(old(Rows()), Rows(), heads, table.keys)
      ensures r.Err? ==> table.Contents() == old(table.Contents()) && Rows() == old(Rows())
    {
      hide Fit, Logged, ViewsOf, HandlesFit, R.Counted, R.Ordered, R.ChunksLogged, SameHolders, SameRows, R.Swept;
      hide Collected;
      hide Registered, BlobsKnown, OwnNames, R.CollectedExactly, R.WithCount;
      r := table.UpdateInode(i, key);
      if r.Err? { return; }
      HolderSet(names, heads, old(table.keys), store.holders, i, key);
      EntityThere(names, Rows(), store.rows, key);
      ghost var rows, n := store.rows, EntityNode(names, key);
      RecountSame(names, Rows(), rows, n, rows[n].count + 1);
      R.SweptReflexive(rows);
      var repointed := store.RepointHolder(InodeHolder(names, i), EntityNode(names, key));
      Shrink(if old(store.holders)[InodeHolder(names, i)] == n then rows else R.WithCount(rows, n, rows[n].count + 1));
    }

    /** `INSERT INTO vfs` */
    method Insert(kind: Kind, p: InodeId, key: EntityKey) returns (r: Result<InodeId, TableError>)
      requires Valid()
      modifies this`commits, table, store
      ensures Valid()
      ensures r.Ok? <==> old(CanInsert(table.nodes, table.keys, kind, p, key, table.entities))
      ensures r.Ok? ==> r.value == InodeOf(key.id) && table.keys == old(table.keys)[r.value := key]
      ensures r.Ok? ==> table.nodes == old(table.nodes)[r.value := NewInode(p, key)]
      ensures Rows() == old(Rows()) && (r.Err? ==> table.Contents() == old(table.Contents()))
    {
      hide Fit, Logged, ViewsOf, HandlesFit, R.Counted, R.Ordered, R.ChunksLogged, SameHolders, SameRows, R.Swept;
      hide Collected;
      hide Registered, BlobsKnown, OwnNames, R.CollectedExactly, R.WithCount, CanInsert;
      r := table.InsertInode(kind, p, key);
      if r.Err? { return; }
      InsertIsFresh(old(table.nodes), old(table.keys), kind, p, key, table.entities);
      HolderSet(names, heads, old(table.keys), store.holders, InodeOf(key.id), key);
      EntityThere(names, Rows(), store.rows, key);
      ghost var rows, n := store.rows, EntityNode(names, key);
      RecountSame(names, Rows(), rows, n, rows[n].count + 1);
      var held := store.InsertHolder(InodeHolder(names, InodeOf(key.id)), EntityNode(names, key));
    }

    /** `DELETE FROM vfs`, cascading: each deleted entry gives its entity back. */
    method Delete(i: InodeId) returns (r: Result<(), TableError>)
      requires Valid()
      modifies this`commits, table, store
      ensures Valid()
      ensures r.Ok? <==>
        i != RootInode && forall h :: h in old(table.handles) ==> old(table.handles)[h] !in Subtree(old(table.nodes), i)
      ensures r.Ok? ==> table.keys == old(table.keys) - Subtree(old(table.nodes), i)
      ensures r.Ok? ==> table.nodes == old(table.nodes) - Subtree(old(table.nodes), i)
      ensures r.Ok? ==> Collected(old(Rows()), Rows(), heads, table.keys)
      ensures r.Err? ==> table.Contents() == old(table.Contents()) && Rows() == old(Rows())
    {
      hide Fit, Logged, ViewsOf, HandlesFit, R.Counted, R.Ordered, R.ChunksLogged, SameHolders, SameRows, R.Swept;
      hide Collected;
      hide Registered, BlobsKnown, OwnNames, R.CollectedExactly, R.WithCount, Subtree;
      var keys := table.keys;
      r := table.DeleteInode(i);
      CollectNothing(Rows(), heads, table.keys);
      if r.Err? { return; }
      var gone := keys.Keys - table.keys.Keys;
      WithoutGone(keys, Subtree(old(table.nodes), i));
      var hs := set j | j in gone :: InodeHolder(names, j);
      HoldersGone(names, heads, keys, store.holders, gone, hs);
      ghost var rows := store.rows;
      store.DeleteHolders(hs);
      Shrink(rows);
    }

    /** `register_entity` of a local entity: its references are counted. */
    method Register(key: EntityKey) returns (r: Result<(), TableError>)
      requires Valid()
      modifies table, store
      ensures Valid()
      ensures r.Ok? <==> Known(key, old(table.entities), table.blobs)
      ensures Rows() == if r.Ok? then old(Rows()).(entities := old(table.entities) + {key}) else old(Rows())
      ensures table.Contents() == old(table.Contents())
    {
      hide Fit, Logged, ViewsOf, HandlesFit, R.Counted, R.Ordered, R.ChunksLogged, SameHolders, SameRows, R.Swept;
      hide Collected;
      hide Registered, BlobsKnown, OwnNames, R.CollectedExactly, R.WithCount, RefsOf;
      var known := key in table.entities;
      EntityThere(names, Rows(), store.rows, key);
      RefsThere(names, Rows(), store.rows, key);
      r := table.RegisterEntity(key);
      if r.Err? || known {
        assert known ==> old(table.entities) + {key} == old(table.entities);
        return;
      }
      ghost var rows := store.rows;
      var inserted := store.InsertRow(EntityNode(names, key), R.Local, RefsOf(names, key));
      EntityAdded(names, old(Rows()), rows, store.rows, key);
    }

    /** `register_commit` of a local commit: its entity is counted. */
    method RegisterCommit(c: Commit) returns (r: Result<(), DbError>)
      requires Valid()
      modifies this`commits, store
      ensures Valid()
      ensures r.Ok? <==> c.entity in table.entities && KindOf(c.entity).Dir?
      ensures Rows() == if r.Ok? then old(Rows()).(commits := old(commits) + {HashOf(c)}) else old(Rows())
    {
      hide Fit, Logged, ViewsOf, HandlesFit, R.Counted, R.Ordered, R.ChunksLogged, SameHolders, SameRows, R.Swept;
      hide Collected;
      hide Registered, BlobsKnown, OwnNames, R.CollectedExactly, R.WithCount;
      if c.entity !in table.entities || !KindOf(c.entity).Dir? { return Err(DbError.StatementFailed); }
      if HashOf(c) in commits {
        assert commits + {HashOf(c)} == commits;
        return Ok(());
      }
      EntityThere(names, Rows(), store.rows, c.entity);
      CommitThere(names, Rows(), store.rows, HashOf(c));
      ghost var rows := store.rows;
      var inserted := store.InsertRow(CommitNode(names, HashOf(c)), R.Local, [EntityNode(names, c.entity)]);
      CommitAdded(names, Rows(), rows, store.rows, c);
      commits := commits + {HashOf(c)};
      return Ok(());
    }

    /** `INSERT` or `UPDATE` of a head. */
    method SetHead(name: string, row: HeadRow) returns (r: Result<(), DbError>)
      requires Valid()
      modifies this`commits, this`heads, table`entities, table`blobs, store
      ensures Valid()
      ensures r.Ok? <==> row.commit in old(commits)
      ensures heads == if r.Ok? then old(heads)[name := row] else old(heads)
      ensures if r.Ok? then Collected(old(Rows()), Rows(), heads, table.keys) else Rows() == old(Rows())
    {
      hide Fit, Logged, ViewsOf, HandlesFit, R.Counted, R.Ordered, R.ChunksLogged, SameHolders, SameRows, R.Swept;
      hide Collected;
      hide Registered, BlobsKnown, OwnNames, R.CollectedExactly, R.WithCount;
      if row.commit !in commits { return Err(CommitNotFound); }
      HeadThere(names, heads, table.keys, store.holders, name);
      HeadSet(names, heads, table.keys, store.holders, name, row);
      CommitThere(names, Rows(), store.rows, row.commit);
      ghost var rows, n, h := store.rows, CommitNode(names, row.commit), R.Holder.HeadRow(name);
      RecountSame(names, Rows(), rows, n, rows[n].count + 1);
      R.SweptReflexive(rows);
      R.SweptReflexive(R.WithCount(rows, n, rows[n].count + 1));
      var known := name in heads;
      heads := heads[name := row];
      if known {
        var repointed := store.RepointHolder(R.Holder.HeadRow(name), CommitNode(names, row.commit));
      } else {
        var inserted := store.InsertHolder(R.Holder.HeadRow(name), CommitNode(names, row.commit));
      }
      Shrink(if known && old(store.holders)[h] == n then rows else R.WithCount(rows, n, rows[n].count + 1));
      return Ok(());
    }

    /** `DELETE FROM head` */
    method DropHead(name: string)
      requires Valid()
      modifies this`commits, this`heads, table`entities, table`blobs, store
      ensures Valid() && heads == old(heads) - {name} && Collected(old(Rows()), Rows(), heads, table.keys)
    {
      hide Fit, Logged, ViewsOf, HandlesFit, R.Counted, R.Ordered, R.ChunksLogged, SameHolders, SameRows, R.Swept;
      hide Collected;
      hide Registered, BlobsKnown, OwnNames, R.CollectedExactly, R.WithCount;
      HeadGone(names, heads, table.keys, store.holders, name);
      ghost var rows := store.rows;
      heads := heads - {name};
      store.DeleteHolder(R.Holder.HeadRow(name));
      Shrink(rows);
    }

    /** The entity's L->S transition, with the row of its object in place. */
    method MarkSynced(key: EntityKey, remote: nat) returns (r: Result<(), TableError>)
      requires Valid() && R.Node(R.Object, remote) in store.rows
      modifies table, store
      ensures Valid()
      ensures r.Ok? <==> key in table.entities
      ensures Rows() == if r.Ok? then old(Rows()).(synced := old(table.synced) + {key}) else old(Rows())
      ensures table.Contents().(log := old(table.log)) == old(table.Contents())
    {
      hide Fit, Logged, ViewsOf, HandlesFit, R.Counted, R.Ordered, R.ChunksLogged, SameHolders, SameRows, R.Swept;
      hide Collected;
      hide Registered, BlobsKnown, OwnNames, R.CollectedExactly, R.WithCount, RefsOf;
      EntityThere(names, Rows(), store.rows, key);
      var known := key in table.synced;
      r := table.MarkEntitySynced(key);
      if r.Err? || known {
        assert known ==> old(table.synced) + {key} == old(table.synced);
        return;
      }
      ghost var rows := store.rows;
      var marked := store.MarkSynced(EntityNode(names, key), remote);
      EntityMarked(names, old(Rows()), rows, store.rows, key);
    }
  }

  lemma EmptyTwins(names: Names)
    ensures SameHolders(names, map[], map[], map[]) && SameRows(names, Stock({}, {}, {}, {}, {}, {}), map[])
  {
  }

  lemma InsertIsFresh(nodes: Nodes, keys: Keys, kind: Kind, p: InodeId, key: EntityKey, entities: set<EntityKey>)
    requires keys.Keys == nodes.Keys && CanInsert(nodes, keys, kind, p, key, entities)
    ensures InodeOf(key.id) !in keys && key in entities
  {
  }

  lemma WithoutGone(keys: Keys, gone: set<InodeId>)
    ensures keys - (keys.Keys - (keys - gone).Keys) == keys - gone
  {
  }

  lemma HeadThere(names: Names, heads: Heads, keys: Keys, holders: R.Holders, n: string)
    requires SameHolders(names, heads, keys, holders)
    ensures n in heads <==> R.Holder.HeadRow(n) in holders
  {
  }

  lemma HeadGone(names: Names, heads: Heads, keys: Keys, holders: R.Holders, n: string)
    requires SameHolders(names, heads, keys, holders)
    ensures SameHolders(names, heads - {n}, keys, holders - {R.Holder.HeadRow(n)})
  {
  }

  lemma CommitThere(names: Names, s: Stock, rows: R.Rows, c: CommitId)
    requires SameRows(names, s, rows)
    ensures c in s.commits <==> CommitNode(names, c) in rows
  {
    assert c in s.commits ==> RowOf(rows, CommitNode(names, c), [EntityNode(names, c.commit.entity)], c in s.syncedCommits);
  }

  /** An entity's references are there in one view exactly if they are in the other. */
  lemma RefsThere(names: Names, s: Stock, rows: R.Rows, k: EntityKey)
    requires SameRows(names, s, rows)
    ensures RefsKnown(k, s.entities, s.blobs) <==> forall t :: t in RefsOf(names, k) ==> t in rows
    ensures forall t :: t in RefsOf(names, k) ==> !t.table.Object?
  {
    if k.revision.DirRevision? {
      forall e | e in EntriesOf(k) ensures e in s.entities <==> EntityNode(names, e) in rows { EntityThere(names, s, rows, e); }
      if forall t :: t in RefsOf(names, k) ==> t in rows {
        forall e | e in EntriesOf(k) ensures e in s.entities {
          var i :| 0 <= i < |EntriesOf(k)| && EntriesOf(k)[i] == e;
          assert RefsOf(names, k)[i] in RefsOf(names, k);
        }
      }
    } else {
      assert RefsOf(names, k)[0] == BlobNode(k.revision.blob);
    }
  }

  lemma EntityAdded(names: Names, s: Stock, rows: R.Rows, after: R.Rows, key: EntityKey)
    requires OwnNames(names) && SameRows(names, s, rows) && key !in s.entities
    requires after.Keys == rows.Keys + {EntityNode(names, key)} && S.OnlyMoreCounted(rows, after)
    requires after[EntityNode(names, key)] == R.Row(0, R.Local, RefsOf(names, key))
    ensures SameRows(names, s.(entities := s.entities + {key}), after)
  {
    hide RefsOf;
    forall k | k in s.entities + {key} ensures RowOf(after, EntityNode(names, k), RefsOf(names, k), k in s.synced) {
      assert k in s.entities ==> RowOf(rows, EntityNode(names, k), RefsOf(names, k), k in s.synced);
    }
    forall k | k !in s.entities + {key} ensures EntityNode(names, k) !in after {
      assert EntityNode(names, k) == EntityNode(names, key) ==> names.entity(k) == names.entity(key);
    }
    forall c | c in s.commits
      ensures c.HashOf?
      ensures RowOf(after, CommitNode(names, c), [EntityNode(names, c.commit.entity)], c in s.syncedCommits) {
    }
  }

  lemma CommitAdded(names: Names, s: Stock, rows: R.Rows, after: R.Rows, c: Commit)
    requires OwnNames(names) && SameRows(names, s, rows) && HashOf(c) !in s.commits
    requires after.Keys == rows.Keys + {CommitNode(names, HashOf(c))} && S.OnlyMoreCounted(rows, after)
    requires after[CommitNode(names, HashOf(c))] == R.Row(0, R.Local, [EntityNode(names, c.entity)])
    ensures SameRows(names, s.(commits := s.commits + {HashOf(c)}), after)
  {
    hide RefsOf;
    forall k | k in s.entities ensures RowOf(after, EntityNode(names, k), RefsOf(names, k), k in s.synced) {
      assert RowOf(rows, EntityNode(names, k), RefsOf(names, k), k in s.synced);
    }
    forall d | d in s.commits + {HashOf(c)}
      ensures d.HashOf?
      ensures RowOf(after, CommitNode(names, d), [EntityNode(names, d.commit.entity)], d in s.syncedCommits) {
    }
    forall d | d !in s.commits + {HashOf(c)} ensures CommitNode(names, d) !in after {
      assert CommitNode(names, d) == CommitNode(names, HashOf(c)) ==> names.commit(d) == names.commit(HashOf(c));
    }
  }

  lemma EntityMarked(names: Names, s: Stock, rows: R.Rows, after: R.Rows, key: EntityKey)
    requires OwnNames(names) && SameRows(names, s, rows) && key in s.entities
    requires after.Keys == rows.Keys && after[EntityNode(names, key)].mode.Synced?
    requires after[EntityNode(names, key)].refs == rows[EntityNode(names, key)].refs
    requires forall m :: m in after && m != EntityNode(names, key) ==> after[m].mode == rows[m].mode && after[m].refs == rows[m].refs
    ensures SameRows(names, s.(synced := s.synced + {key}), after)
  {
    hide RefsOf;
    forall k | k in s.entities ensures RowOf(after, EntityNode(names, k), RefsOf(names, k), k in s.synced + {key}) {
      assert RowOf(rows, EntityNode(names, k), RefsOf(names, k), k in s.synced);
      assert EntityNode(names, k) == EntityNode(names, key) ==> names.entity(k) == names.entity(key);
    }
    forall c | c in s.commits
      ensures c.HashOf?
      ensures RowOf(after, CommitNode(names, c), [EntityNode(names, c.commit.entity)], c in s.syncedCommits) {
    }
  }

  lemma LeftSynced(names: Names, s: Stock, rows: R.Rows)
    requires SameRows(names, s, rows)
    ensures s.synced <= s.entities && s.syncedCommits <= s.commits && s.syncedBlobs <= s.blobs
  {
  }
}
