/** A volume's commits, heads and configuration over the vfs table, and its transactions: every commit
    rebuilds the dirty directories, moves the branch head when the root changed, and invalidates the
    caches; a pulled configuration checks its commit out (janus-vfs/src/db.rs, vfs/commit.rs, vfs/config.rs). */
module Transactions {
  import opened Wrappers
  import opened Trees
  import opened Marks
  import opened PathIndex
  import opened Entities
  import opened Merkle
  import opened TableSteps
  import opened ChangeLog
  import opened Statements
  import opened VfsTable
  import opened Checkout
  import opened DirtyPass
  import opened Heads

  class Volume {
    const table: Table
    /** The branch that is written; none when a tag is mounted. */
    const branch: Option<string>
    /** Whether edits are refused: always for a tag. */
    const readOnly: bool
    var commits: set<CommitId>
    var syncedCommits: set<CommitId>
    var heads: Heads
    var config: Option<Config>
    var caches: Caches

    /** What every transaction keeps, whatever bodies its updates come with. */
    ghost predicate Sound()
      reads this, table
    {
      && table.Valid() && table.keys.Keys == table.nodes.Keys && Closed(table.nodes, table.dirty)
      && CommitsFit(commits, table.entities) && HeadsFit(heads, commits) && syncedCommits <= commits
      && ConfigFits(config, heads) && Agree(table.base, caches) && (branch.None? ==> readOnly)
    }

    /** The counted rows. */
    function Rows(): Stock
      reads this, table
    {
      Stock(commits, syncedCommits, table.entities, table.synced, table.blobs, table.syncedBlobs)
    }

    ghost predicate Valid()
      reads this, table
    {
      Sound() && Consistent(table.nodes, table.keys, table.dirty)
    }

    /** Between transactions. */
    ghost predicate Quiet()
      reads this, table
    {
      && Sound() && table.dirty == {} && table.base == table.Views()
      && (branch.Some? && config.Some? ==> AtHead(heads, branch.value, table.keys))
    }

    /** Between transactions, with every directory up to date. */
    ghost predicate Settled()
      reads this, table
    {
      Quiet() && Consistent(table.nodes, table.keys, table.dirty)
    }

    // ---------- what a transaction has done ----------

    /** Nothing: an error, rolled back. */
    twostate predicate Untouched()
      reads this, table
    {
      && heads == old(heads) && config == old(config) && caches == old(caches) && Rows() == old(Rows())
      && table.Contents() == old(table.Contents())
    }

    /** The branch head has moved if the root's entity is another one, and the configuration with it. */
    twostate predicate HeadFollows(now: int)
      reads this, table
    {
      && (if branch.Some? && old(config).Some? then HeadMoves(old(heads), heads, branch.value, table.keys, now)
          else heads == old(heads))
      && ConfigMoves(old(config), config, old(heads), heads, now)
    }

    /** The tree has become `n` with the entities `stated`, but for the bodies of the directories in `above`,
        which list their children again. */
    twostate predicate Edited(new n: Nodes, new stated: Keys, new above: set<InodeId>, new blobs: set<nat>, now: int)
      reads this, table
    {
      && table.nodes == n && Rebodied(n, stated, above, table.keys)
      && HeadFollows(now) && Stocked(old(Rows()), Rows(), heads, table.keys, blobs)
    }

    /** A new inode under `p` with the entity `key`. */
    twostate predicate Made(kind: Kind, new key: EntityKey, new p: InodeId, new blobs: set<nat>, allowed: bool, ok: bool, now: int)
      reads this, table
    {
      var i := InodeOf(key.id);
      && old(table.keys).Keys == old(table.nodes).Keys
      && (ok <==> allowed && CanInsert(old(table.nodes), old(table.keys), kind, p, key, old(table.entities) + {key}))
      && if ok then Edited(old(table.nodes)[i := Inode(kind, key.revision.meta.name, Some(p))], old(table.keys)[i := key],
                           Upward(table.nodes, p), blobs, now)
         else Untouched()
    }

    /** The inode `i` has the entity `key`, if everything that it refers to is there and the table accepts it. */
    twostate predicate Changed(new i: InodeId, new key: EntityKey, new blobs: set<nat>, ok: bool, now: int)
      reads this, table
    {
      && old(table.keys).Keys == old(table.nodes).Keys
      && (ok <==> !readOnly && Known(key, old(table.entities), old(table.blobs) + blobs)
                  && CanUpdate(old(table.nodes), old(table.keys), i, key, old(table.entities) + {key}))
      && if ok then i in old(table.nodes) && i in old(table.keys) && i in table.keys && table.keys[i] == key
                    && Edited(old(table.nodes)[i := old(table.nodes)[i].(name := key.revision.meta.name)],
                              old(table.keys)[i := key],
                              MarksAfterUpdate(old(table.nodes), old(table.keys), {}, i, key), blobs, now)
         else Untouched()
    }

    constructor (branch: Option<string>, readOnly: bool)
      ensures Settled() && fresh(this) && fresh(table) && this.branch == branch && config == None
      ensures this.readOnly == (branch.None? || readOnly)
      ensures table.nodes == map[] && table.handles == map[] && heads == map[]
      ensures Rows() == Stock({}, {}, {}, {}, {}, {})
    {
      this.branch, this.readOnly := branch, branch.None? || readOnly;
      table := new Table();
      commits, syncedCommits, heads, config, caches := {}, {}, map[], None, Caches(map[], map[]);
    }

    /** When the transaction can commit: a branch of a configured volume has a root and a head. */
    predicate CanCommit()
      reads this, table
    {
      branch.Some? && config.Some? ==> RootInode in table.keys && CurrentCommit(heads, Branch(branch.value)).Some?
    }

    /** `update_commit` */
    method UpdateCommit(name: string, now: int) returns (r: Result<Option<Commit>, DbError>)
      requires CommitsFit(commits, table.entities) && HeadsFit(heads, commits) && Registered(table.keys, table.entities)
      requires RootInode in table.keys ==> KindOf(table.keys[RootInode]).Dir?
      modifies this`commits, this`heads
      ensures CommitsFit(commits, table.entities) && HeadsFit(heads, commits)
      ensures r.Ok? <==> RootInode in table.keys && CurrentCommit(old(heads), Branch(name)).Some?
      ensures r.Err? ==> heads == old(heads) && commits == old(commits)
      ensures r.Ok? ==> CurrentCommit(old(heads), Branch(name)).value.HashOf?
      ensures r.Ok? ==>
        r.value == NextCommit(CurrentCommit(old(heads), Branch(name)).value.commit, table.keys[RootInode], now)
      ensures r.Ok? && r.value.None? ==> heads == old(heads) && commits == old(commits)
      ensures r.Ok? ==> HeadMoves(old(heads), heads, name, table.keys, now)
      ensures r.Ok? && r.value.Some? ==> name in heads && heads[name].commit == HashOf(r.value.value) && heads != old(heads)
      ensures r.Ok? && r.value.Some? ==> commits == old(commits) + {HashOf(r.value.value)}
      ensures r.Ok? ==> commits == old(commits) + NewCommits(old(heads), name, table.keys, now)
      ensures r.Ok? ==> AtHead(heads, name, table.keys)
    {
      if RootInode !in table.keys { return Err(RootMissing); }
      var prev := CurrentCommit(heads, Branch(name));
      if prev.None? { return Err(HeadEntryNotFound); }
      var root := table.keys[RootInode];
      var next := NextCommit(prev.value.commit, root, now);
      if next.Some? {
        commits := commits + {HashOf(next.value)};
        heads := WithHead(heads, name, HashOf(next.value));
      }
      return Ok(next);
    }

    /** `maybe_update_config`: the configuration lists the heads as they are now. */
    method UpdateConfig(listed: map<Head, CommitId>, now: int)
      requires config.Some?
      modifies this`config
      ensures config == Some(if listed == old(config).value.heads then old(config).value
                             else old(config).value.(lastModified := now, synced := false, heads := listed))
    {
      if listed != config.value.heads {
        config := Some(config.value.(lastModified := now, synced := false, heads := listed));
      }
    }

    /** The part of a commit that writes the next commit, the branch head and the configuration's heads. */
    method UpdateHead(now: int) returns (r: Result<(), DbError>)
      requires CommitsFit(commits, table.entities) && HeadsFit(heads, commits) && Registered(table.keys, table.entities)
      requires RootInode in table.keys ==> KindOf(table.keys[RootInode]).Dir?
      requires ConfigFits(config, heads)
      modifies this`commits, this`heads, this`config
      ensures CommitsFit(commits, table.entities) && HeadsFit(heads, commits) && (config.Some? <==> old(config).Some?)
      ensures ConfigFits(config, heads)
      ensures r.Ok? <==> old(CanCommit())
      ensures r.Err? ==> heads == old(heads) && commits == old(commits) && config == old(config)
      ensures r.Ok? && (branch.None? || config.None?) ==> heads == old(heads) && commits == old(commits)
      ensures r.Ok? && branch.Some? && config.Some? ==>
        && AtHead(heads, branch.value, table.keys) && HeadMoves(old(heads), heads, branch.value, table.keys, now)
        && commits == old(commits) + NewCommits(old(heads), branch.value, table.keys, now)
      ensures r.Ok? ==> ConfigMoves(old(config), config, old(heads), heads, now)
      ensures r.Ok? && heads == old(heads) ==> commits == old(commits)
      ensures r.Ok? && (config.None? || branch.None? || AtHead(old(heads), branch.value, table.keys)) ==>
        heads == old(heads)
    {
      hide Registered, HeadsFit, CommitsFit, SameHeads, HeadMoves, Listed, NewCommits, AtHead, NextCommit;
      hide CurrentCommit;
      hide KindOf;
      if branch.Some? && config.Some? {
        HeadsTell(heads, branch.value, table.keys, now);
        var updated := UpdateCommit(branch.value, now);
        if updated.Err? { return Err(updated.error); }
        if updated.value.Some? {
          var listed := Listed(heads);
          ListedSame(heads);
          if listed == config.value.heads { SameListing(listed, old(heads), heads); }
          UpdateConfig(listed, now);
        }
      }
      return Ok(());
    }

    /** Collection: local rows that nothing refers to any more go. How many of them have gone when the
        transaction ends is left open; `RefStore` says which the triggers take. */
    method Collect()
      requires Sound()
      modifies this`commits, table`entities, table`blobs
      ensures Sound() && Collected(old(Rows()), Rows(), heads, table.keys)
    {
      hide Fit, Agree, Logged, ViewsOf, HandlesFit, ConfigFits, Closed, CommitsFit, HeadsFit, Registered, BlobsKnown;
      hide Collected, CommitUnused, EntityUnused, BlobUnused;
      CollectNothing(Rows(), heads, table.keys);
      while true
        invariant Sound() && Collected(old(Rows()), Rows(), heads, table.keys)
        decreases |commits| + |table.entities| + |table.blobs|
      {
        var before := Rows();
        var c: CommitId, k: EntityKey, b: nat := *, *, *;
        if c in commits && CommitUnused(before, heads, c) {
          CollectCommit(before, heads, table.keys, c);
          commits := commits - {c};
        } else if k in table.entities && EntityUnused(before, table.keys, k) {
          CollectEntity(before, heads, table.keys, k);
          table.entities := table.entities - {k};
        } else if b in table.blobs && BlobUnused(before, b) {
          CollectBlob(before, heads, table.keys, b);
          table.blobs := table.blobs - {b};
        } else {
          return;
        }
        CollectedTransitive(old(Rows()), before, Rows(), heads, table.keys);
      }
    }

    /** `Transaction::commit`. On an error the transaction is rolled back, which is not part of this model. */
    method Commit(now: int) returns (r: Result<(), DbError>)
      requires Sound()
      modifies this
      modifies table`nodes, table`keys, table`paths, table`dirty, table`log, table`base, table`entities, table`blobs
      ensures r.Ok? <==> old(CanCommit())
      ensures r.Ok? ==> Quiet() && table.log == {}
      ensures r.Ok? ==> (Settled() <==> old(Consistent(table.nodes, table.keys, table.dirty)))
      ensures r.Err? ==> heads == old(heads) && commits == old(commits) && config == old(config) && caches == old(caches)
      ensures syncedCommits == old(syncedCommits) && (r.Err? ==> table.blobs == old(table.blobs))
      ensures table.nodes == old(table.nodes) && table.keys.Keys == table.nodes.Keys
      ensures Snapshot(table.nodes, old(table.keys), old(table.dirty), table.keys)
      ensures Rebodied(table.nodes, old(table.keys), old(table.dirty), table.keys)
      ensures r.Ok? ==> HeadFollows(now) && Stocked(old(Rows()), Rows(), heads, table.keys, {})
      ensures r.Ok? && (old(config).None? || branch.None? || AtHead(old(heads), branch.value, table.keys)) ==>
        heads == old(heads)
      ensures config.Some? <==> old(config).Some?
      ensures r.Ok? ==>
        Collected(WithNew(old(Rows()), KeysOf(table.keys, old(table.dirty)), Gained(old(heads), old(config), table.keys, now)),
                  Rows(), heads, table.keys)
      ensures r.Ok? && old(table.dirty) == {} && heads == old(heads) ==> Rows() == old(Rows())
    {
      hide Consistent, Snapshot, Agree, Fit, Registered, Logged, ViewsOf, HandlesFit, HeadsFit, BlobsKnown, Closed;
      hide CommitsFit, HeadMoves, SameHeads, AtHead, ConfigFits, Collected, KeysOf, Rebodied, ConfigMoves, Stocked;
      ghost var was, wasHeads, wasConfig := Rows(), heads, config;
      var rewrites := table.dirty != {};
      var passed := ProcessDirtyInodes(table);
      if passed.Err? { return Err(DbError.StatementFailed); }
      MoreEntities(commits, was.entities, table.entities);
      RootIsDir(table.Contents());
      var before := heads;
      var moved := UpdateHead(now);
      if moved.Err? { return moved; }
      RewrittenRows(was, table.keys, old(table.dirty), Gained(wasHeads, wasConfig, table.keys, now), Rows());
      Publish(rewrites || heads != before);
      KeysAreHeld(table.keys, old(table.dirty));
      CommitStocks(was, KeysOf(table.keys, old(table.dirty)), wasHeads, wasConfig, Rows(), heads, table.keys, now);
      return Ok(());
    }

    /** The end of a commit: the caches are told of the logged inodes, the log is cleared, and what was
        dropped is collected. */
    method Publish(dropping: bool)
      requires Sound() && table.dirty == {}
      requires branch.Some? && config.Some? ==> AtHead(heads, branch.value, table.keys)
      modifies this`commits, this`caches, table`log, table`base, table`entities, table`blobs
      ensures Quiet() && table.log == {}
      ensures Collected(old(Rows()), Rows(), heads, table.keys) && (!dropping ==> Rows() == old(Rows()))
    {
      hide Agree, Fit, Registered, Logged, ViewsOf, HandlesFit, HeadsFit, BlobsKnown, Closed, CommitsFit, AtHead;
      hide ConfigFits, Collected;
      InvalidationSound(table.base, table.Views(), table.log, caches);
      caches := Invalidated(caches, table.log);
      table.ClearLog();
      CollectNothing(Rows(), heads, table.keys);
      if dropping { Collect(); }
    }

    /** What an edit of the tree may have added to the commits. */
    function Gained(before: Heads, was: Option<Config>, keys: Keys, now: int): set<CommitId>
      reads this
    {
      if branch.Some? && was.Some? then NewCommits(before, branch.value, keys, now) else {}
    }

    /** What a commit brings in is held by the tree and the head. */
    lemma CommitStocks(was: Stock, rewritten: set<EntityKey>, before: Heads, wasConfig: Option<Config>, after: Stock,
                       heads: Heads, keys: Keys, now: int)
      requires Collected(WithNew(was, rewritten, Gained(before, wasConfig, keys, now)), after, heads, keys)
      requires forall k :: k in rewritten ==> exists i :: i in keys && keys[i] == k
      requires branch.Some? && wasConfig.Some? ==> HeadMoves(before, heads, branch.value, keys, now)
      ensures Stocked(was, after, heads, keys, {})
    {
    }

    // ---------- cached loads ----------

    /** `inode_by_id`, through the inode cache. */
    method InodeById(i: InodeId) returns (r: Option<View>)
      requires Settled()
      modifies this`caches
      ensures Settled() && (r.Some? <==> i in table.nodes)
      ensures r.Some? ==>
        && Tree(table.nodes) && r.value.parent == table.nodes[i].parent && r.value.path == Some(Path(table.nodes, i))
        && r.value.key == table.keys[i] && (r.value.synced <==> table.keys[i] in table.synced)
      ensures caches == old(caches).(inodes := old(caches.inodes)[i := r])
    {
      hide Consistent, Fit, Registered, Logged, ViewsOf, HandlesFit, CommitsFit, HeadsFit, AtHead, Path, Tree;
      if i in caches.inodes {
        r := caches.inodes[i];
      } else {
        var views := table.Views();
        r := if i in views then Some(views[i]) else None;
        InodeLoaded(views, caches, i, r);
        caches := caches.(inodes := caches.inodes[i := r]);
      }
      ViewShows(table.Contents(), table.synced, i, r);
    }

    /** `inode_id_by_path`, through the path cache: what walking the tree along the path's names finds. */
    method InodeIdByPath(path: string) returns (r: Option<InodeId>)
      requires Settled()
      modifies this`caches
      ensures Settled()
      ensures path == "/" ==> r == Some(RootInode)
      ensures table.nodes != map[] ==>
        forall names :: ValidNames(names) && Join(names) == path ==> r == Walk(table.nodes, names)
      ensures caches == if path == "/" then old(caches) else old(caches).(paths := old(caches.paths)[path := r])
    {
      hide Consistent, Fit, Registered, Logged, ViewsOf, HandlesFit, CommitsFit, HeadsFit, AtHead, PathAnswer;
      hide Walk, ValidNames;
      RootWalks(table.nodes);
      if path == "/" {
        OnlyRootIsSlash();
        return Some(RootInode);
      }
      if path in caches.paths {
        r := caches.paths[path];
      } else {
        r := table.FindPath(path);
        PathLoaded(table.Views(), caches, path, r);
        caches := caches.(paths := caches.paths[path := r]);
      }
      AnswerIsWalk(table.Contents(), table.synced, path, r);
    }

    // ---------- a pulled configuration ----------

    /** The upserts of `set_config`: a missing commit or a changed head type aborts. */
    method UpsertHeads(listed: map<Head, CommitId>) returns (r: Result<(), DbError>)
      requires HeadsFit(heads, commits)
      modifies this`heads
      ensures r.Ok? ==> HeadsFit(heads, commits)
      ensures r.Ok? <==> Acceptable(listed, old(heads), commits)
      ensures r.Ok? ==> forall h :: h in listed ==> CurrentCommit(heads, h) == Some(listed[h])
      ensures r.Ok? ==> OthersKept(listed, old(heads), heads)
    {
      hide OthersKept, HeadsFit, Acceptable, Upserted, CurrentCommit;
      ghost var before := heads;
      var rest := listed.Keys;
      UpsertStart(listed, heads, commits);
      while rest != {}
        invariant rest <= listed.Keys && Upserted(listed, rest, before, heads, commits)
        decreases |rest|
      {
        var h :| h in rest;
        UpsertStep(listed, rest, before, heads, commits, h);
        if listed[h] !in commits { return Err(CommitNotFound); }
        if h.name in heads && heads[h.name].isBranch != h.Branch? { return Err(HeadTypeFixed); }
        heads := heads[h.name := HeadRow(h.Branch?, listed[h])];
        rest := rest - {h};
      }
      UpsertEnd(listed, before, heads, commits);
      OthersStay(listed, before, heads, commits);
      return Ok(());
    }

    /** Obsolete heads are dropped: exactly the listed ones stay. */
    method DropHeads(listed: map<Head, CommitId>)
      requires HeadsFit(heads, commits) && forall h :: h in listed ==> CurrentCommit(heads, h) == Some(listed[h])
      modifies this`heads
      ensures HeadsFit(heads, commits) && SameHeads(listed, heads)
    {
      hide HeadsFit, SameHeads, CurrentCommit, HeadOf;
      ghost var before := heads;
      heads := heads - (set n | n in heads && HeadOf(heads, n) !in listed);
      KeptHeads(listed, before, heads, commits);
    }

    /** When `set_config` succeeds. */
    ghost predicate CanSet(c: Config, head: Head)
      reads this, table
    {
      && head in c.heads && Acceptable(c.heads, heads, commits) && c.heads[head].HashOf?
      && (config.Some? ==> config.value.head == head.name)
      && (CurrentCommit(heads, head) == Some(c.heads[head])
          || CanShow(c.heads[head].commit.entity, table.keys, table.handles))
    }

    /** `set_config` */
    method SetConfig(c: Config, head: Head) returns (r: Result<(), DbError>)
      requires Settled()
      modifies this`heads, this`config, table`nodes, table`keys, table`paths, table`dirty, table`log
      ensures r.Ok? <==> old(CanSet(c, head))
      ensures r.Ok? ==> Valid() && SameHeads(c.heads, heads) && config == Some(c.(head := head.name))
      ensures r.Ok? ==> head in c.heads && c.heads[head] in commits && c.heads[head].HashOf?
      ensures r.Ok? && CurrentCommit(old(heads), head) == Some(c.heads[head]) ==>
        table.nodes == old(table.nodes) && table.keys == old(table.keys) && table.dirty == {}
      ensures r.Ok? && CurrentCommit(old(heads), head) != Some(c.heads[head]) ==>
        UnfoldsFrom(c.heads[head].commit.entity, table.nodes, table.keys)
    {
      hide Consistent, Agree, Fit, Registered, Logged, ViewsOf, HandlesFit, UnfoldsFrom, Acceptable, AtHead, Closed;
      hide BlobsKnown, CanShow, SameHeads, ConfigFits, CommitsFit, HeadsFit, OthersKept, CurrentCommit, HeadOf;
      if head !in c.heads { return Err(HeadEntryNotFound); }
      var prev := CurrentCommit(heads, head);
      var upserted := UpsertHeads(c.heads);
      if upserted.Err? { return upserted; }
      if config.Some? && config.value.head != head.name { return Err(ConfigHeadFixed); }
      config := Some(c.(head := head.name));
      DropHeads(c.heads);
      var current := CurrentCommit(heads, head);
      SameHeadsAt(c.heads, heads, head);
      HeadCommitFits(heads, commits, table.entities, head);
      if current != prev {
        var shown := ShowTree(current.value.commit.entity);
        if shown.Err? { return shown; }
      }
      ConsistentCloses(table.nodes, table.keys, table.dirty);
      ConfigSet(c.heads, heads, c.(head := head.name));
      return Ok(());
    }

    /** The check-out of a commit's tree, unless the root is at it already. */
    method ShowTree(root: EntityKey) returns (r: Result<(), DbError>)
      requires table.Valid() && table.keys.Keys == table.nodes.Keys && root in table.entities && table.dirty == {}
      requires Consistent(table.nodes, table.keys, table.dirty)
      modifies table`nodes, table`keys, table`paths, table`dirty, table`log
      ensures r.Ok? <==> old(CanShow(root, table.keys, table.handles))
      ensures r.Ok? ==> table.Valid() && table.keys.Keys == table.nodes.Keys
      ensures r.Ok? ==> Consistent(table.nodes, table.keys, table.dirty) && UnfoldsFrom(root, table.nodes, table.keys)
    {
      hide Consistent, Fit, Registered, Logged, ViewsOf, HandlesFit, UnfoldsFrom, BlobsKnown;
      if RootInode in table.keys && table.keys[RootInode] == root {
        SettledUnfolds(table.Contents());
        return Ok(());
      }
      var rebuilt := Rebuild(table, root);
      return if rebuilt.Ok? then Ok(()) else Err(DbError.StatementFailed);
    }

    /** `maybe_set_config`: only a newer configuration that is stored remotely is taken over. */
    predicate Takes(c: Config)
      reads this
    {
      config.None? || (c.lastModified > config.value.lastModified && c.synced)
    }

    /** What taking over `c` has done when its transaction ends. The head's tree is shown, and if it is one
        that this code committed, the commit of the transaction finds every directory as it was: heads and
        configuration are exactly `c`'s. Otherwise that commit may have moved the branch head. */
    twostate predicate TookOver(new c: Config, new head: Head, now: int)
      requires head in c.heads && c.heads[head].HashOf?
      reads this, table
    {
      && TakenHeads(c, head, config, heads, table.keys, now)
      && TreeFollows(c, head, old(heads), old(table.nodes), old(table.keys), table.nodes, table.keys)
    }

    /** One pulled configuration: `config_sync` in its transaction, which an error rolls back. A volume
        without a configuration takes any that fits; one that has one ignores what is not newer or not
        stored remotely, and takes anything else that fits. */
    method PullConfig(c: Config, head: Head, now: int) returns (r: Result<(), DbError>)
      requires Settled() && branch == if head.Branch? then Some(head.name) else None
      modifies this
      modifies table`nodes, table`keys, table`paths, table`dirty, table`log, table`base, table`entities, table`blobs
      modifies table`synced, table`syncedBlobs
      ensures Settled()
      ensures r.Err? ==> Untouched()
      ensures old(config).Some? && (c.lastModified <= old(config).value.lastModified || !c.synced) ==>
        r.Ok? && heads == old(heads) && config == old(config) && Rows() == old(Rows())
        && table.nodes == old(table.nodes) && table.keys == old(table.keys)
      ensures old(config).None? || (c.lastModified > old(config).value.lastModified && c.synced) ==>
        (r.Ok? <==> old(CanSet(c, head))) && (r.Ok? ==> head in c.heads && c.heads[head].HashOf? && TookOver(c, head, now))
      ensures old(config).Some? ==>
        config.Some? && (config.value.lastModified >= old(config).value.lastModified || config.value.lastModified == now)
      ensures syncedCommits == old(syncedCommits) && table.synced == old(table.synced)
      ensures table.syncedBlobs == old(table.syncedBlobs)
    {
      hide Consistent, Agree, Fit, Registered, Logged, ViewsOf, HandlesFit, UnfoldsFrom, Acceptable, CommittedFrom;
      hide SameHeads, Snapshot, CommitsFit, HeadsFit, BlobsKnown, Closed, CommittedHere, AtHead, CanShow;
      hide CanSet, TookOver, Settled, Sound;
      var saved, rows := table.Contents(), Rows();
      var volume := (heads, config, caches);
      ghost var base := table.base;
      r := TakeConfig(c, head, now);
      if r.Err? {
        RollBack(saved, rows, base);
        heads, config, caches := volume.0, volume.1, volume.2;
        StillSettled();
      }
    }

    /** The tables as they were when the transaction began. */
    method RollBack(saved: Columns, rows: Stock, ghost base: Views)
      modifies this`commits, this`syncedCommits
      modifies table`nodes, table`keys, table`paths, table`dirty, table`log, table`base, table`entities
      modifies table`synced, table`blobs, table`syncedBlobs
      ensures table.Contents() == saved && Rows() == rows && table.base == base
    {
      table.nodes, table.keys, table.paths, table.dirty := saved.nodes, saved.keys, saved.paths, saved.dirty;
      table.log, table.base := saved.log, base;
      commits, syncedCommits := rows.commits, rows.syncedCommits;
      table.entities, table.synced, table.blobs, table.syncedBlobs := rows.entities, rows.synced, rows.blobs, rows.syncedBlobs;
    }

    /** A state is settled by what its fields hold. */
    twostate lemma StillSettled()
      requires old(Settled())
      requires heads == old(heads) && config == old(config) && caches == old(caches) && Rows() == old(Rows())
      requires table.Contents() == old(table.Contents()) && table.base == old(table.base)
      requires table.handles == old(table.handles)
      ensures Settled()
    {
      hide Consistent, Agree, Fit, Registered, Logged, ViewsOf, HandlesFit, CommitsFit, HeadsFit, BlobsKnown, Closed;
      hide AtHead, ConfigFits;
    }

    /** The transaction of `PullConfig`, up to its commit or its first error. */
    method TakeConfig(c: Config, head: Head, now: int) returns (r: Result<(), DbError>)
      requires Settled() && branch == if head.Branch? then Some(head.name) else None
      modifies this
      modifies table`nodes, table`keys, table`paths, table`dirty, table`log, table`base, table`entities, table`blobs
      ensures r.Ok? ==> Settled() && syncedCommits == old(syncedCommits)
      ensures !old(Takes(c)) ==>
        r.Ok? && heads == old(heads) && config == old(config) && Rows() == old(Rows())
        && table.nodes == old(table.nodes) && table.keys == old(table.keys)
      ensures old(Takes(c)) ==> (r.Ok? <==> old(CanSet(c, head)))
      ensures old(Takes(c)) && r.Ok? ==> head in c.heads && c.heads[head].HashOf? && TookOver(c, head, now)
      ensures old(config).Some? && r.Ok? ==>
        config.Some? && (config.value.lastModified >= old(config).value.lastModified || config.value.lastModified == now)
    {
      hide Consistent, Agree, Fit, Registered, Logged, ViewsOf, HandlesFit, CommitsFit, HeadsFit, BlobsKnown, Closed;
      hide ConfigFits, AtHead, CanSet, TookOver;
      if Takes(c) {
        r := ApplyConfig(c, head, now);
      } else {
        CommitRows(now);
        r := Ok(());
      }
    }

    /** `set_config`, and the commit behind it. */
    method ApplyConfig(c: Config, head: Head, now: int) returns (r: Result<(), DbError>)
      requires Settled() && branch == if head.Branch? then Some(head.name) else None
      modifies this
      modifies table`nodes, table`keys, table`paths, table`dirty, table`log, table`base, table`entities, table`blobs
      ensures r.Ok? ==> Settled() && syncedCommits == old(syncedCommits)
      ensures r.Ok? <==> old(CanSet(c, head))
      ensures r.Ok? ==> head in c.heads && c.heads[head].HashOf? && TookOver(c, head, now)
      ensures r.Ok? ==> config.Some? && (config.value.lastModified == c.lastModified || config.value.lastModified == now)
    {
      hide Consistent, Agree, Fit, Registered, Logged, ViewsOf, HandlesFit, UnfoldsFrom, Acceptable, CommittedFrom;
      hide SameHeads, Snapshot, CommitsFit, HeadsFit, BlobsKnown, Closed, ConfigFits, HeadMoves, Stocked, ConfigMoves;
      hide Rebodied, Collected, CanSet, CommittedHere, CurrentCommit, TakenHeads, TakenTree;
      NoHeads(config, heads);
      NoCurrent(heads, head);
      ghost var kept := head in c.heads && CurrentCommit(heads, head) == Some(c.heads[head]);
      r := SetConfig(c, head);
      if r.Err? { return; }
      Collect();
      ghost var shown, listed := table.Contents(), heads;
      ghost var root := c.heads[head].commit.entity;
      ListedHead(c.heads, heads, head);
      NoCurrent(heads, head);
      ShownIsRight(shown, root, kept, head.Branch?);
      r := Commit(now);
      if table.dirty == shown.dirty { SnapshotOfNone(table.nodes, shown.keys, table.keys); }
      if !kept || head.Branch? { TreeTaken(root, table.nodes, shown.keys, shown.dirty, table.keys); }
      HeadsTaken(c, head, listed, heads, config, table.keys, now);
    }

    // ---------- local edits, each in its own transaction ----------

    /** The commit of an edit of the tree `n`: a new commit appears exactly when the root's key is another
        one, which between up-to-date trees means another tree. */
    method CommitEdit(now: int, ghost n: Nodes, ghost k: Keys)
      requires Sound() && (branch.Some? && config.Some? ==> AtHead(heads, branch.value, k) && RootInode in table.keys)
      requires RootInode in k ==> UnfoldsFrom(k[RootInode], n, k)
      modifies this
      modifies table`nodes, table`keys, table`paths, table`dirty, table`log, table`base, table`entities, table`blobs
      ensures Quiet() && Edited(old(table.nodes), old(table.keys), old(table.dirty), {}, now)
      ensures Settled() <==> old(Consistent(table.nodes, table.keys, table.dirty))
      ensures Snapshot(table.nodes, old(table.keys), old(table.dirty), table.keys)
      ensures branch.Some? && config.Some? ==>
        RootInode in k && RootInode in table.keys && (heads == old(heads) <==> table.keys[RootInode] == k[RootInode])
      ensures branch.Some? && config.Some? && Settled() ==> (heads == old(heads) <==> table.nodes == n && table.keys == k)
    {
      hide Consistent, Agree, Fit, Registered, Logged, ViewsOf, HandlesFit, UnfoldsFrom, Snapshot, CommitsFit, HeadsFit;
      hide BlobsKnown, Closed, ConfigFits, HeadMoves, ConfigMoves, Stocked, Rebodied, Collected, AtHead;
      NoCurrent(heads, Branch(if branch.Some? then branch.value else ""));
      HeadTells(heads, branch, k);
      var done := Commit(now);
      assert done.Ok?;
      if branch.Some? && config.Some? { HeadTells(heads, branch, table.keys); }
      if branch.Some? && config.Some? && Settled() {
        SettledUnfolds(table.Contents());
        RootKeyTells(table.nodes, table.keys, n, k);
      }
    }

    /** `mv` */
    method Mv(i: InodeId, p: InodeId, now: int) returns (r: Result<(), DbError>)
      requires Settled()
      modifies this
      modifies table`nodes, table`keys, table`paths, table`dirty, table`log, table`base, table`entities, table`blobs
      ensures Settled()
      ensures r.Ok? <==> !readOnly && CanMove(old(table.nodes), i, p)
      ensures r.Err? ==> Untouched()
      ensures r.Ok? ==>
        Edited(Moved(old(table.nodes), i, p), old(table.keys), MarksOfMove(old(table.nodes), i, p), {}, now)
      ensures r.Ok? && branch.Some? && config.Some? ==>
        (heads == old(heads) <==> table.nodes == old(table.nodes) && table.keys == old(table.keys))
    {
      hide Consistent, Agree, Fit, Registered, Logged, ViewsOf, HandlesFit, UnfoldsFrom, Snapshot, CommitsFit;
      hide HeadsFit, CanMove, BlobsKnown, ConfigFits, Rebodied, Stocked, HeadMoves, ConfigMoves, Upward;
      if readOnly { return Err(ReadOnlyFileSystem); }
      ghost var was := table.Contents();
      if RootInode in table.keys { SettledUnfolds(was); }
      var moved := table.MoveInode(i, p);
      if moved.Err? { return Err(DbError.StatementFailed); }
      ConsistentCloses(table.nodes, table.keys, table.dirty);
      MoveNeeds(was.nodes, i, p);
      NoMarks(was, i);
      assert table.dirty == MarksOfMove(was.nodes, i, p);
      CommitEdit(now, was.nodes, was.keys);
      return Ok(());
    }

    /** `delete` */
    method Delete(i: InodeId, now: int) returns (r: Result<(), DbError>)
      requires Settled()
      modifies this
      modifies table`nodes, table`keys, table`paths, table`dirty, table`log, table`base, table`entities, table`blobs
      ensures Settled()
      ensures r.Ok? <==>
        !readOnly && i != RootInode
        && forall h :: h in old(table.handles) ==> old(table.handles)[h] !in Subtree(old(table.nodes), i)
      ensures r.Err? ==> Untouched()
      ensures r.Ok? ==>
        var gone := Subtree(old(table.nodes), i);
        Edited(old(table.nodes) - gone, old(table.keys) - gone, MarksOfDelete(old(table.nodes), i), {}, now)
      ensures r.Ok? && branch.Some? && config.Some? ==>
        (heads == old(heads) <==> table.nodes == old(table.nodes) && table.keys == old(table.keys))
    {
      hide Consistent, Agree, Fit, Registered, Logged, ViewsOf, HandlesFit, UnfoldsFrom, Snapshot, CommitsFit;
      hide HeadsFit, Subtree, BlobsKnown, ConfigFits, Rebodied, Stocked, HeadMoves, ConfigMoves, Upward;
      if readOnly { return Err(ReadOnlyFileSystem); }
      ghost var was := table.Contents();
      if RootInode in table.keys { SettledUnfolds(was); }
      if i != RootInode { RootNotBelow(was, i); }
      var deleted := table.DeleteInode(i);
      if deleted.Err? { return Err(DbError.StatementFailed); }
      ConsistentCloses(table.nodes, table.keys, table.dirty);
      NoMarks(was, i);
      assert table.dirty == MarksOfDelete(was.nodes, i);
      CommitEdit(now, was.nodes, was.keys);
      return Ok(());
    }

    /** `create_dir`: a new entity without entries, and its inode. */
    method CreateDir(meta: Meta, p: InodeId, now: int) returns (r: Result<InodeId, DbError>)
      requires Settled()
      modifies this
      modifies table`nodes, table`keys, table`paths, table`dirty, table`log, table`base, table`entities, table`blobs
      ensures Settled() && Made(Dir, EntityKey(meta.id, DirRevision(meta, [])), p, {}, !readOnly, r.Ok?, now)
      ensures r.Ok? ==> r.value == InodeOf(meta.id)
      ensures r.Ok? && branch.Some? && config.Some? ==> heads != old(heads)
    {
      hide Consistent, Agree, Fit, Registered, Logged, ViewsOf, HandlesFit, CommitsFit, HeadsFit, CanInsert, BlobsKnown;
      hide Snapshot, Upward, ConfigFits, Rebodied, Stocked, HeadMoves, ConfigMoves;
      if readOnly { return Err(ReadOnlyFileSystem); }
      r := CreateInode(Dir, NewDir(meta), p, now);
    }

    /** `create_file`: the empty blob, a new entity over it, and its inode. Nothing refuses it on a volume
        that is read-only. */
    method CreateFile(meta: Meta, p: InodeId, now: int) returns (r: Result<InodeId, DbError>)
      requires Settled()
      modifies this
      modifies table`nodes, table`keys, table`paths, table`dirty, table`log, table`base, table`entities, table`blobs
      ensures Settled()
      ensures Made(File, EntityKey(meta.id, FileRevision(meta, EMPTY_BLOB, 0)), p, {EMPTY_BLOB}, true, r.Ok?, now)
      ensures r.Ok? ==> r.value == InodeOf(meta.id)
      ensures r.Ok? && branch.Some? && config.Some? ==> heads != old(heads)
    {
      hide Consistent, Agree, Fit, Registered, Logged, ViewsOf, HandlesFit, CommitsFit, HeadsFit, CanInsert, BlobsKnown;
      hide Snapshot, Upward, ConfigFits, Rebodied, Stocked, HeadMoves, ConfigMoves;
      ghost var was := Rows();
      var saved := table.blobs;
      table.RegisterBlob(EMPTY_BLOB);
      r := CreateInode(File, NewFile(meta), p, now);
      if r.Err? {
        SavedBlobs(table.entities, old(table.entities), saved);
        table.blobs := saved;
      } else {
        StockedBlob(was, EMPTY_BLOB, Rows(), heads, table.keys);
      }
    }

    /** `register_entity` and `create_inode` of an entity without entries, and the commit. */
    method CreateInode(kind: Kind, key: EntityKey, p: InodeId, now: int) returns (r: Result<InodeId, DbError>)
      requires Settled() && EntriesOf(key) == [] && (key.revision.FileRevision? ==> key.revision.blob in table.blobs)
      modifies this
      modifies table`nodes, table`keys, table`paths, table`dirty, table`log, table`base, table`entities, table`blobs
      ensures Settled() && Made(kind, key, p, {}, true, r.Ok?, now)
      ensures r.Ok? ==> r.value == InodeOf(key.id)
      ensures r.Ok? && branch.Some? && config.Some? ==> heads != old(heads)
    {
      hide Consistent, Agree, Fit, Registered, Logged, ViewsOf, HandlesFit, UnfoldsFrom, Snapshot, CommitsFit;
      hide HeadsFit, CanInsert, BlobsKnown, ConfigFits, Rebodied, Stocked, HeadMoves, ConfigMoves, Upward, Closed;
      hide AtHead;
      ghost var was, rows := table.Contents(), Rows();
      if RootInode in table.keys { SettledUnfolds(was); }
      HeadTells(heads, branch, table.keys);
      InsertNeedsKind(was.nodes, was.keys, kind, p, key, table.entities + {key});
      r := InsertStatements(kind, key, p);
      if r.Err? { return; }
      ghost var stated := table.keys;
      NewNotAbove(table.Contents(), r.value, p);
      CommitEdit(now, was.nodes, was.keys);
      UpdatedKey(table.nodes, stated, Upward(table.nodes, p), table.keys, r.value);
      StockedKey(rows, {key}, rows.(entities := rows.entities + {key}), Rows(), heads, table.keys);
    }

    /** `register_entity` and `create_inode`, before the commit. */
    method InsertStatements(kind: Kind, key: EntityKey, p: InodeId) returns (r: Result<InodeId, DbError>)
      requires Settled() && EntriesOf(key) == [] && (key.revision.FileRevision? ==> key.revision.blob in table.blobs)
      modifies table`nodes, table`keys, table`paths, table`dirty, table`log, table`entities
      ensures Valid()
      ensures r.Ok? <==> CanInsert(old(table.nodes), old(table.keys), kind, p, key, old(table.entities) + {key})
      ensures r.Err? ==> table.Contents() == old(table.Contents()) && table.entities == old(table.entities)
      ensures r.Ok? ==> r.value == InodeOf(key.id) && table.entities == old(table.entities) + {key}
      ensures r.Ok? ==> table.nodes == old(table.nodes)[r.value := NewInode(p, key)] && table.nodes != old(table.nodes)
      ensures r.Ok? ==> table.keys == old(table.keys)[r.value := key] && table.dirty == Upward(table.nodes, p)
    {
      hide Consistent, Agree, Fit, Registered, Logged, ViewsOf, HandlesFit, CommitsFit, HeadsFit, CanInsert, BlobsKnown;
      hide ConfigFits, ValidName, Upward;
      ghost var was := table.Contents();
      var saved := table.entities;
      var registered := table.RegisterEntity(key);
      if registered.Err? {
        InsertNeedsName(was.nodes, was.keys, kind, p, key, saved + {key});
        return Err(DbError.StatementFailed);
      }
      MoreEntities(commits, saved, table.entities);
      var made := table.InsertInode(kind, p, key);
      if made.Err? {
        FewerBlobs(saved, table.entities, table.blobs);
        table.entities := saved;
        return Err(DbError.StatementFailed);
      }
      InsertIsNew(was.nodes, was.keys, kind, p, key, table.entities);
      assert table.dirty == Upward(table.nodes, p);
      return Ok(made.value);
    }

    /** `update`: another revision of an inode's entity. A new commit appears exactly when the tree is
        another one, and all directories are up to date exactly if a directory comes with the stored body. */
    method Update(i: InodeId, key: EntityKey, now: int) returns (r: Result<(), DbError>)
      requires Settled()
      modifies this
      modifies table`nodes, table`keys, table`paths, table`dirty, table`log, table`base, table`entities, table`blobs
      ensures Quiet() && Changed(i, key, {}, r.Ok?, now)
      ensures Settled() <==> r.Err? || key.revision.FileRevision? || EntriesOf(key) == EntriesOf(old(table.keys)[i])
      ensures r.Ok? && branch.Some? && config.Some? ==>
        (heads == old(heads) <==> table.nodes == old(table.nodes) && table.keys == old(table.keys))
    {
      hide Consistent, Agree, Fit, Registered, Logged, ViewsOf, HandlesFit, UnfoldsFrom, Snapshot, CommitsFit;
      hide HeadsFit, CanUpdate, BlobsKnown, Closed, MarksAfterUpdate, Known, ConfigFits, Collected, Rebodied, Stocked;
      hide HeadMoves, ConfigMoves, EntriesOf, AtHead, Upward, ValidName, RefsKnown, UnusedBlob, UnusedEntity;
      if readOnly { return Err(ReadOnlyFileSystem); }
      ghost var was, rows := table.Contents(), Rows();
      if RootInode in table.keys { SettledUnfolds(was); }
      UpdateNeeds(was.nodes, was.keys, i, key, table.entities + {key});
      assert table.blobs + {} == table.blobs;
      r := UpdateStatements(i, key);
      if r.Ok? {
        ghost var stated, wasHeads := Rows(), heads;
        Collect();
        ghost var marked, left := table.dirty, Rows();
        UpdatedMarks(was, i, key);
        HeadTells(heads, branch, was.keys);
        CommitEdit(now, was.nodes, was.keys);
        UpdatedKey(table.nodes, was.keys[i := key], marked, table.keys, i);
        StockedUpdate(rows, key, stated, left, wasHeads, was.keys, i, Rows(), heads, table.keys);
        if branch.Some? && config.Some? { UpdateRises(was, i, key, table.nodes, marked, table.keys); }
      }
    }

    /** `fsync`: the new content's blob, and the file's next revision over it. Its handle was opened for
        writing, which a read-only volume refuses. */
    method Fsync(i: InodeId, meta: Meta, blob: nat, len: nat, now: int) returns (r: Result<(), DbError>)
      requires Settled()
      modifies this
      modifies table`nodes, table`keys, table`paths, table`dirty, table`log, table`base, table`entities, table`blobs
      ensures Settled() && Changed(i, EntityKey(meta.id, FileRevision(meta, blob, len)), {blob}, r.Ok?, now)
      ensures r.Ok? ==> blob in table.blobs
      ensures r.Ok? && branch.Some? && config.Some? ==>
        (heads == old(heads) <==> table.nodes == old(table.nodes) && table.keys == old(table.keys))
    {
      hide Consistent, Agree, Fit, Registered, Logged, ViewsOf, HandlesFit, CommitsFit, HeadsFit, BlobsKnown, Closed;
      hide ValidName, SlotTaken, ConfigFits, CanUpdate, Rebodied, Stocked, HeadMoves, ConfigMoves, MarksAfterUpdate;
      ghost var was := Rows();
      var saved := table.blobs;
      table.RegisterBlob(blob);
      UpdateNeeds(old(table.nodes), old(table.keys), i, EntityKey(meta.id, FileRevision(meta, blob, len)),
                  table.entities + {EntityKey(meta.id, FileRevision(meta, blob, len))});
      r := Update(i, EntityKey(meta.id, FileRevision(meta, blob, len)), now);
      if r.Err? {
        SavedBlobs(table.entities, old(table.entities), saved);
        table.blobs := saved;
      } else {
        FileBlob(table.keys, table.entities, table.blobs, i);
        StockedBlob(was, blob, Rows(), heads, table.keys);
      }
    }

    // ---------- transactions of a push and of a pull ----------

    /** The state but for the counted rows' modes and for rows that came. */
    twostate predicate OnlyMoreRows()
      reads this, table
    {
      && heads == old(heads) && table.nodes == old(table.nodes) && table.keys == old(table.keys)
      && old(commits) <= commits && old(syncedCommits) <= syncedCommits
      && old(table.entities) <= table.entities && old(table.synced) <= table.synced
      && old(table.blobs) <= table.blobs && old(table.syncedBlobs) <= table.syncedBlobs
    }

    /** The commit of a transaction that leaves tree and heads alone. */
    method CommitRows(now: int)
      requires Sound() && table.dirty == {} && Consistent(table.nodes, table.keys, table.dirty)
      requires branch.Some? && config.Some? ==> AtHead(heads, branch.value, table.keys)
      modifies this
      modifies table`nodes, table`keys, table`paths, table`dirty, table`log, table`base, table`entities, table`blobs
      ensures Settled() && heads == old(heads) && config == old(config) && Rows() == old(Rows())
      ensures table.nodes == old(table.nodes) && table.keys == old(table.keys)
    {
      hide Consistent, Fit, Registered, Logged, ViewsOf, HandlesFit, CommitsFit, HeadsFit, BlobsKnown, Closed, Snapshot;
      hide Agree, AtHead, ConfigFits, Collected, HeadMoves;
      ghost var before := table.keys;
      CanCommitAtHead();
      var done := Commit(now);
      SnapshotOfNone(table.nodes, before, table.keys);
    }

    /** The transaction of a push that records uploaded entities: no key, no head and no commit changes, and
        the views that showed the entities as local are dropped from the caches. */
    method RecordSynced(keys: seq<EntityKey>, now: int) returns (r: Result<(), DbError>)
      requires Settled()
      modifies this
      modifies table`nodes, table`keys, table`paths, table`dirty, table`log, table`base, table`entities, table`blobs
      modifies table`synced
      ensures Settled() && OnlyMoreRows() && config == old(config)
      ensures r.Ok? <==> !readOnly && forall k :: k in keys ==> k in old(table.entities)
      ensures Rows() == if r.Ok? then old(Rows()).(synced := old(table.synced) + set k | k in keys) else old(Rows())
      ensures forall i :: i in caches.inodes ==> InodeAnswer(table.Views(), i, caches.inodes[i])
    {
      hide Consistent, Fit, Registered, Logged, ViewsOf, HandlesFit, CommitsFit, HeadsFit, BlobsKnown, Closed;
      hide InodeAnswer, ConfigFits, AtHead;
      if readOnly { return Err(ReadOnlyFileSystem); }
      var savedSynced, savedLog := table.synced, table.log;
      for n := 0 to |keys|
        invariant Sound() && table.dirty == {} && Consistent(table.nodes, table.keys, table.dirty)
        invariant forall k :: k in keys[..n] ==> k in table.entities
        invariant table.synced == savedSynced + set k | k in keys[..n]
        modifies table`synced, table`log
      {
        var marked := table.MarkEntitySynced(keys[n]);
        if marked.Err? {
          table.synced, table.log := savedSynced, savedLog;
          return Err(DbError.StatementFailed);
        }
        assert keys[..n + 1] == keys[..n] + [keys[n]];
      }
      assert keys[..|keys|] == keys;
      CommitRows(now);
      return Ok(());
    }

    /** The same for an uploaded commit: a local one becomes synced. */
    method RecordCommit(c: CommitId, now: int) returns (r: Result<(), DbError>)
      requires Settled()
      modifies this
      modifies table`nodes, table`keys, table`paths, table`dirty, table`log, table`base, table`entities, table`blobs
      ensures Settled() && OnlyMoreRows() && config == old(config)
      ensures r.Ok? <==> !readOnly && c in old(commits) && c !in old(syncedCommits)
      ensures Rows() == if r.Ok? then old(Rows()).(syncedCommits := old(syncedCommits) + {c}) else old(Rows())
    {
      hide Consistent, Fit, Registered, Logged, ViewsOf, HandlesFit, CommitsFit, HeadsFit, BlobsKnown, Closed;
      hide ConfigFits, AtHead, Agree;
      if readOnly { return Err(ReadOnlyFileSystem); }
      if c !in commits || c in syncedCommits { return Err(DbError.StatementFailed); }
      syncedCommits := syncedCommits + {c};
      CommitRows(now);
      return Ok(());
    }

    /** The same for an uploaded blob. */
    method RecordBlob(blob: nat, now: int) returns (r: Result<(), DbError>)
      requires Settled()
      modifies this
      modifies table`nodes, table`keys, table`paths, table`dirty, table`log, table`base, table`entities, table`blobs
      modifies table`syncedBlobs
      ensures Settled() && OnlyMoreRows() && config == old(config)
      ensures r.Ok? <==> !readOnly && blob in old(table.blobs) && blob !in old(table.syncedBlobs)
      ensures Rows() == if r.Ok? then old(Rows()).(syncedBlobs := old(table.syncedBlobs) + {blob}) else old(Rows())
    {
      hide Consistent, Fit, Registered, Logged, ViewsOf, HandlesFit, CommitsFit, HeadsFit, BlobsKnown, Closed;
      hide ConfigFits, AtHead, Agree;
      if readOnly { return Err(ReadOnlyFileSystem); }
      if blob !in table.blobs || blob in table.syncedBlobs { return Err(DbError.StatementFailed); }
      table.syncedBlobs := table.syncedBlobs + {blob};
      CommitRows(now);
      return Ok(());
    }

    /** The same for the uploaded configuration, if it is still the present one. */
    method RecordConfig(c: Config, now: int) returns (r: Result<(), DbError>)
      requires Settled()
      modifies this
      modifies table`nodes, table`keys, table`paths, table`dirty, table`log, table`base, table`entities, table`blobs
      ensures Settled() && OnlyMoreRows() && Rows() == old(Rows())
      ensures r.Ok? <==> !readOnly
      ensures config == if r.Ok? && old(config) == Some(c) then Some(c.(synced := true)) else old(config)
    {
      hide Consistent, Fit, Registered, Logged, ViewsOf, HandlesFit, CommitsFit, HeadsFit, BlobsKnown, Closed;
      hide AtHead, Agree, SameHeads;
      if readOnly { return Err(ReadOnlyFileSystem); }
      if config == Some(c) { config := Some(c.(synced := true)); }
      CommitRows(now);
      return Ok(());
    }

    /** `blob_sync` of an object that is new. Whether the blob's chunks are there is up to their own tables. */
    method ReceiveBlob(blob: nat, chunksKnown: bool, now: int) returns (r: Result<(), DbError>)
      requires Settled()
      modifies this
      modifies table`nodes, table`keys, table`paths, table`dirty, table`log, table`base, table`entities, table`blobs
      modifies table`syncedBlobs
      ensures Settled() && OnlyMoreRows() && config == old(config)
      ensures r.Ok? <==> blob !in old(table.syncedBlobs) && (blob in old(table.blobs) || chunksKnown)
      ensures var rows := old(Rows());
              Rows() == if r.Ok? then rows.(blobs := rows.blobs + {blob}, syncedBlobs := rows.syncedBlobs + {blob}) else rows
    {
      hide Consistent, Fit, Registered, Logged, ViewsOf, HandlesFit, CommitsFit, HeadsFit, BlobsKnown, Closed;
      hide ConfigFits, AtHead, Agree;
      if blob !in table.blobs && !chunksKnown { return Err(DbError.StatementFailed); }
      var registered := table.RegisterRemoteBlob(blob);
      if registered.Err? { return Err(DbError.StatementFailed); }
      CommitRows(now);
      return Ok(());
    }

    /** `entity_sync` of an object that is new: the entity becomes a synced row, or its local row becomes
        synced. */
    method ReceiveEntity(key: EntityKey, now: int) returns (r: Result<(), DbError>)
      requires Settled()
      modifies this
      modifies table`nodes, table`keys, table`paths, table`dirty, table`log, table`base, table`entities, table`blobs
      modifies table`synced
      ensures Settled() && OnlyMoreRows() && config == old(config)
      ensures r.Ok? <==> Known(key, old(table.entities), old(table.blobs))
      ensures var rows := old(Rows());
              Rows() == if r.Ok? then rows.(entities := rows.entities + {key}, synced := rows.synced + {key}) else rows
    {
      hide Consistent, Fit, Registered, Logged, ViewsOf, HandlesFit, CommitsFit, HeadsFit, BlobsKnown, Closed, Known;
      hide ConfigFits, AtHead, Agree;
      var saved := table.entities;
      var registered := table.RegisterEntity(key);
      if registered.Err? { return Err(DbError.StatementFailed); }
      MoreEntities(commits, saved, table.entities);
      var synced := table.MarkEntitySynced(key);
      CommitRows(now);
      return Ok(());
    }

    /** `commit_sync` of an object that is new: the commit's entity must be a registered directory, and a row
        that is there already must be local. */
    method ReceiveCommit(c: Commit, now: int) returns (r: Result<(), DbError>)
      requires Settled()
      modifies this
      modifies table`nodes, table`keys, table`paths, table`dirty, table`log, table`base, table`entities, table`blobs
      ensures Settled() && OnlyMoreRows() && config == old(config)
      ensures r.Ok? <==> c.entity in old(table.entities) && KindOf(c.entity).Dir? && HashOf(c) !in old(syncedCommits)
      ensures var rows, id := old(Rows()), HashOf(c);
              Rows() == if r.Ok? then rows.(commits := rows.commits + {id}, syncedCommits := rows.syncedCommits + {id}) else rows
    {
      hide Consistent, Fit, Registered, Logged, ViewsOf, HandlesFit, BlobsKnown, Closed;
      hide ConfigFits, AtHead, Agree;
      if c.entity !in table.entities || !KindOf(c.entity).Dir? { return Err(DbError.StatementFailed); }
      if HashOf(c) in syncedCommits { return Err(DbError.StatementFailed); }
      commits, syncedCommits := commits + {HashOf(c)}, syncedCommits + {HashOf(c)};
      hide CommitsFit, HeadsFit;
      CommitRows(now);
      return Ok(());
    }

    lemma CanCommitAtHead()
      requires branch.Some? && config.Some? ==> AtHead(heads, branch.value, table.keys)
      ensures CanCommit()
    {
    }

    // ---------- runs ----------

    /** Only the counted rows are others. */
    twostate predicate RowsAre(new rows: Stock)
      reads this, table
    {
      && heads == old(heads) && config == old(config) && Rows() == rows
      && table.nodes == old(table.nodes) && table.keys == old(table.keys)
    }

    /** What one transaction does. */
    twostate predicate Effect(new op: Edit, ok: bool, now: int)
      reads this, table
    {
      match op
      case Move(i, p) =>
        && (ok <==> !readOnly && CanMove(old(table.nodes), i, p))
        && if ok then Edited(Moved(old(table.nodes), i, p), old(table.keys), MarksOfMove(old(table.nodes), i, p), {}, now)
           else Untouched()
      case Remove(i) =>
        var gone := Subtree(old(table.nodes), i);
        && (ok <==> !readOnly && i != RootInode
                    && forall h :: h in old(table.handles) ==> old(table.handles)[h] !in gone)
        && if ok then Edited(old(table.nodes) - gone, old(table.keys) - gone, MarksOfDelete(old(table.nodes), i), {}, now)
           else Untouched()
      case MakeDir(meta, p) => Made(Dir, EntityKey(meta.id, DirRevision(meta, [])), p, {}, !readOnly, ok, now)
      case MakeFile(meta, p) =>
        Made(File, EntityKey(meta.id, FileRevision(meta, EMPTY_BLOB, 0)), p, {EMPTY_BLOB}, true, ok, now)
      case Write(i, meta, blob, len) => Changed(i, EntityKey(meta.id, FileRevision(meta, blob, len)), {blob}, ok, now)
      case Change(i, meta) =>
        if i in old(table.keys) then Changed(i, EntityKey(meta.id, old(table.keys)[i].revision.(meta := meta)), {}, ok, now)
        else !ok && Untouched()
      case Uploaded(keys) =>
        && (ok <==> !readOnly && forall k :: k in keys ==> k in old(table.entities))
        && RowsAre(if ok then old(Rows()).(synced := old(table.synced) + set k | k in keys) else old(Rows()))
      case UploadedBlob(blob) =>
        && (ok <==> !readOnly && blob in old(table.blobs) && blob !in old(table.syncedBlobs))
        && RowsAre(if ok then old(Rows()).(syncedBlobs := old(table.syncedBlobs) + {blob}) else old(Rows()))
      case UploadedCommit(c) =>
        && (ok <==> !readOnly && c in old(commits) && c !in old(syncedCommits))
        && RowsAre(if ok then old(Rows()).(syncedCommits := old(syncedCommits) + {c}) else old(Rows()))
      case UploadedConfig(c) =>
        && (ok <==> !readOnly) && Rows() == old(Rows()) && heads == old(heads)
        && table.nodes == old(table.nodes) && table.keys == old(table.keys)
        && config == if ok && old(config) == Some(c) then Some(c.(synced := true)) else old(config)
      case PulledBlob(blob, chunksKnown) =>
        && (ok <==> blob !in old(table.syncedBlobs) && (blob in old(table.blobs) || chunksKnown))
        && RowsAre(if ok then old(Rows()).(blobs := old(table.blobs) + {blob}, syncedBlobs := old(table.syncedBlobs) + {blob})
                   else old(Rows()))
      case PulledEntity(key) =>
        && (ok <==> Known(key, old(table.entities), old(table.blobs)))
        && RowsAre(if ok then old(Rows()).(entities := old(table.entities) + {key}, synced := old(table.synced) + {key})
                   else old(Rows()))
      case PulledCommit(c) =>
        && (ok <==> c.entity in old(table.entities) && c.entity.revision.DirRevision? && HashOf(c) !in old(syncedCommits))
        && RowsAre(if ok then old(Rows()).(commits := old(commits) + {HashOf(c)},
                                           syncedCommits := old(syncedCommits) + {HashOf(c)})
                   else old(Rows()))
      case Pulled(c, head) =>
        if branch != if head.Branch? then Some(head.name) else None then !ok && Untouched()
        else if old(config).Some? && (c.lastModified <= old(config).value.lastModified || !c.synced)
        then ok && RowsAre(old(Rows()))
        else (ok <==> old(CanSet(c, head)))
             && if ok then head in c.heads && c.heads[head].HashOf? && TookOver(c, head, now) else Untouched()
    }

    /** One transaction of any kind. A change of an inode's metadata comes with the body that is stored. */
    method Transact(op: Edit, now: int) returns (ok: bool)
      requires Settled()
      modifies this
      modifies table`nodes, table`keys, table`paths, table`dirty, table`log, table`base, table`entities, table`blobs
      modifies table`synced, table`syncedBlobs
      ensures Settled() && Effect(op, ok, now)
    {
      hide Consistent, Agree, Fit, Registered, Logged, ViewsOf, HandlesFit, CommitsFit, HeadsFit, AtHead, BlobsKnown;
      hide Closed, CanInsert, CanUpdate, CanMove, Subtree, Snapshot, SameHeads, Upward, Known, CanShow, Acceptable;
      hide CommittedFrom, CommittedHere, ConfigFits, HeadMoves, Edited, TookOver, MarksAfterUpdate, CanSet;
      hide Rebodied, Stocked, ConfigMoves, ValidName;
      match op {
        case Move(i, p) => var r := Mv(i, p, now); ok := r.Ok?;
        case Remove(i) => var r := Delete(i, now); ok := r.Ok?;
        case MakeDir(meta, p) => var r := CreateDir(meta, p, now); ok := r.Ok?;
        case MakeFile(meta, p) => var r := CreateFile(meta, p, now); ok := r.Ok?;
        case Write(i, meta, blob, len) => var r := Fsync(i, meta, blob, len, now); ok := r.Ok?;
        case Change(i, meta) =>
          ok := false;
          if i in table.keys {
            var r := Update(i, WithMeta(table.keys[i], meta), now);
            ok := r.Ok?;
          }
        case Uploaded(keys) => var r := RecordSynced(keys, now); ok := r.Ok?;
        case UploadedBlob(blob) => var r := RecordBlob(blob, now); ok := r.Ok?;
        case UploadedCommit(c) => var r := RecordCommit(c, now); ok := r.Ok?;
        case UploadedConfig(c) => var r := RecordConfig(c, now); ok := r.Ok?;
        case PulledBlob(blob, chunksKnown) => var r := ReceiveBlob(blob, chunksKnown, now); ok := r.Ok?;
        case PulledEntity(key) => var r := ReceiveEntity(key, now); ok := r.Ok?;
        case PulledCommit(c) => var r := ReceiveCommit(c, now); ok := r.Ok?;
        case Pulled(c, head) =>
          ok := false;
          if branch == if head.Branch? then Some(head.name) else None {
            var r := PullConfig(c, head, now);
            ok := r.Ok?;
          }
      }
    }

    /** After any transactions every directory lists its children, the branch's commit is of the root that
        the tables show, and the caches answer as the tables do. */
    method Run(ops: seq<Edit>)
      requires Settled()
      modifies this
      modifies table`nodes, table`keys, table`paths, table`dirty, table`log, table`base, table`entities, table`blobs
      modifies table`synced, table`syncedBlobs
      ensures Settled() && Agree(table.Views(), caches)
      ensures table.keys.Keys == table.nodes.Keys && Tracked(table.nodes, table.keys, {})
      ensures branch.Some? && config.Some? ==> AtHead(heads, branch.value, table.keys)
      ensures if config.Some? then SameHeads(config.value.heads, heads) else heads == map[]
    {
      hide SameHeads, Agree, Fit, Registered, Logged, ViewsOf, HandlesFit, CommitsFit, HeadsFit, AtHead;
      hide BlobsKnown, Closed;
      hide Tracked, Directories;
      for n := 0 to |ops|
        invariant Settled()
      {
        var now: int := *;
        var ok := Transact(ops[n], now);
      }
    }

    /** The statements of `update`, before the commit. */
    method UpdateStatements(i: InodeId, key: EntityKey) returns (r: Result<(), DbError>)
      requires Settled()
      modifies table`nodes, table`keys, table`paths, table`dirty, table`log, table`entities
      ensures Sound()
      ensures r.Ok? <==> Known(key, old(table.entities), table.blobs)
                         && CanUpdate(old(table.nodes), old(table.keys), i, key, old(table.entities) + {key})
      ensures r.Err? ==> table.Contents() == old(table.Contents()) && table.entities == old(table.entities)
      ensures r.Ok? ==> table.entities == old(table.entities) + {key}
      ensures r.Ok? ==> i in old(table.nodes) && old(table.keys)[i].id == key.id && KindOf(key) == old(table.nodes)[i].kind
      ensures r.Ok? ==> table.nodes == Renamed(old(table.nodes), i, NameOf(key)) && table.keys == old(table.keys)[i := key]
      ensures r.Ok? ==> table.dirty == MarksAfterUpdate(old(table.nodes), old(table.keys), {}, i, key)
      ensures r.Ok? ==>
        (Consistent(table.nodes, table.keys, table.dirty)
         <==> table.nodes[i].kind.File? || EntriesOf(key) == EntriesOf(old(table.keys)[i]))
    {
      hide Consistent, Agree, Fit, Registered, Logged, ViewsOf, HandlesFit, CommitsFit, HeadsFit, CanUpdate;
      hide BlobsKnown, Closed, MarksAfterUpdate, Hashed, NoDirtyChild, Known, ConfigFits;
      ghost var was := table.Contents();
      var saved := table.entities;
      var registered := table.RegisterEntity(key);
      if registered.Err? { return Err(DbError.StatementFailed); }
      MoreEntities(commits, saved, table.entities);
      var updated := table.UpdateInode(i, key);
      if updated.Err? {
        FewerBlobs(saved, table.entities, table.blobs);
        table.entities := saved;
        return Err(DbError.StatementFailed);
      }
      UpdateHasRow(was.nodes, was.keys, i, key, table.entities);
      UpdatedMarks(was, i, key);
      FitTree(was);
      StaleBodyExact(was.nodes, was.keys, i, key, table.entities);
      return Ok(());
    }
  }

  datatype Edit =
    | Move(i: InodeId, p: InodeId)
    | Remove(i: InodeId)
    | MakeDir(meta: Meta, p: InodeId)
    | MakeFile(meta: Meta, p: InodeId)
    | Write(i: InodeId, meta: Meta, blob: nat, len: nat)
    | Change(i: InodeId, meta: Meta)
    | Uploaded(keys: seq<EntityKey>)
    | UploadedBlob(blob: nat)
    | UploadedCommit(c: CommitId)
    | UploadedConfig(config: Config)
    | PulledBlob(blob: nat, chunksKnown: bool)
    | PulledEntity(key: EntityKey)
    | PulledCommit(commit: Commit)
    | Pulled(config: Config, head: Head)

  /** Another revision of an entity with the same body. */
  function WithMeta(key: EntityKey, meta: Meta): (r: EntityKey)
    ensures EntriesOf(r) == EntriesOf(key)
  {
    EntityKey(meta.id, key.revision.(meta := meta))
  }

  /** The id of the empty blob. */
  const EMPTY_BLOB: nat := 0

  function NewFile(meta: Meta): EntityKey {
    EntityKey(meta.id, FileRevision(meta, EMPTY_BLOB, 0))
  }

  function NewDir(meta: Meta): EntityKey {
    EntityKey(meta.id, DirRevision(meta, []))
  }

  lemma RootKeyTells(n: Nodes, k: Keys, m: Nodes, l: Keys)
    requires RootInode in k && RootInode in l && UnfoldsFrom(k[RootInode], n, k) && UnfoldsFrom(l[RootInode], m, l)
    ensures k[RootInode] == l[RootInode] <==> n == m && k == l
  {
    if k[RootInode] == l[RootInode] { RootKeyDetermines(n, k, m, l); }
  }

  lemma RootNotBelow(c: Columns, i: InodeId)
    requires Fit(c) && i != RootInode
    ensures RootInode !in Subtree(c.nodes, i)
  {
    if c.nodes != map[] { BelowRoot(c.nodes, i); }
  }

  lemma InsertIsNew(nodes: Nodes, keys: Keys, kind: Kind, p: InodeId, key: EntityKey, entities: set<EntityKey>)
    requires CanInsert(nodes, keys, kind, p, key, entities)
    ensures nodes[InodeOf(key.id) := NewInode(p, key)] != nodes
  {
  }

  /** The stale-update exception, exactly: starting clean, updating an inode leaves an out-of-date body
      unmarked unless a directory comes with its stored body. */
  lemma StaleBodyExact(nodes: Nodes, keys: Keys, i: InodeId, key: EntityKey, entities: set<EntityKey>)
    requires Shaped(nodes, keys) && keys.Keys == nodes.Keys && CanUpdate(nodes, keys, i, key, entities)
    requires Consistent(nodes, keys, {})
    ensures Consistent(Renamed(nodes, i, NameOf(key)), keys[i := key], MarksAfterUpdate(nodes, keys, {}, i, key))
            <==> (nodes[i].kind.Dir? ==> EntriesOf(key) == EntriesOf(keys[i]))
  {
    UpdateConsistent(nodes, keys, {}, i, key, entities);
    if nodes[i].kind.Dir? {
      hide Named, ChildKeys, SortedEntries, CanUpdate, EntriesOf, NameOf;
      assert Tree(nodes) && i in nodes by { assert nodes != map[] by { UpdateHasRow(nodes, keys, i, key, entities); } }
      NotOwnChild(nodes, i);
      UpdateChildren(nodes, keys, i, key, i);
      assert Hashed(nodes, keys, i);
    }
  }

  /** The failing side: emptying the body of any directory that has children is accepted. */
  lemma EmptiedBodyFails(nodes: Nodes, keys: Keys, i: InodeId, c: InodeId, entities: set<EntityKey>)
    requires Shaped(nodes, keys) && keys.Keys == nodes.Keys && Consistent(nodes, keys, {})
    requires i in nodes && nodes[i].kind.Dir? && ChildOf(nodes, i, c) && NewDir(keys[i].revision.meta) in entities
    requires keys[i].revision.meta.id == keys[i].id
    ensures var key := NewDir(keys[i].revision.meta);
            && CanUpdate(nodes, keys, i, key, entities)
            && !Consistent(Renamed(nodes, i, NameOf(key)), keys[i := key], MarksAfterUpdate(nodes, keys, {}, i, key))
  {
    hide Tree, UniqueIds, Tracked, Closed, MarksAfterUpdate, ChildKeys, SortedEntries, DistinctIds, ValidName;
    var key := NewDir(keys[i].revision.meta);
    NameStays(nodes, keys, i);
    assert CanUpdate(nodes, keys, i, key, entities);
    ListsItsChild(nodes, keys, i, c);
    StaleBodyExact(nodes, keys, i, key, entities);
  }

  lemma NameStays(nodes: Nodes, keys: Keys, i: InodeId)
    requires Shaped(nodes, keys) && i in nodes
    ensures ValidName(NameOf(keys[i])) && NameOf(keys[i]) == nodes[i].name
    ensures !SlotTaken(nodes, nodes[i].parent, NameOf(keys[i]), i)
  {
    hide ValidName;
    assert Parented(nodes, RootInode);
    forall j | j in nodes && j != i && nodes[i].parent.Some? && nodes[j].parent == nodes[i].parent
      ensures nodes[j].name != nodes[i].name
    {
      assert !SameSlot(nodes, i, j);
    }
  }

  lemma ListsItsChild(nodes: Nodes, keys: Keys, i: InodeId, c: InodeId)
    requires keys.Keys == nodes.Keys && Tracked(nodes, keys, {}) && i in nodes && nodes[i].kind.Dir?
    requires ChildOf(nodes, i, c)
    ensures keys[c] in EntriesOf(keys[i])
  {
    assert Hashed(nodes, keys, i);
    assert keys[c] in ChildKeys(nodes, keys, i);
  }

  lemma UpdateNeeds(nodes: Nodes, keys: Keys, i: InodeId, key: EntityKey, entities: set<EntityKey>)
    requires keys.Keys == nodes.Keys
    ensures CanUpdate(nodes, keys, i, key, entities) ==>
              i in nodes && keys[i].id == key.id && KindOf(key) == nodes[i].kind && ValidName(NameOf(key))
  {
    hide ValidName;
  }

  lemma InsertNeedsKind(nodes: Nodes, keys: Keys, kind: Kind, p: InodeId, key: EntityKey, entities: set<EntityKey>)
    ensures CanInsert(nodes, keys, kind, p, key, entities) ==> NewInode(p, key) == Inode(kind, key.revision.meta.name, Some(p))
  {
  }

  lemma MoveNeeds(nodes: Nodes, i: InodeId, p: InodeId)
    requires CanMove(nodes, i, p)
    ensures i in nodes && i != RootInode
  {
  }

  lemma InsertNeedsName(nodes: Nodes, keys: Keys, kind: Kind, p: InodeId, key: EntityKey, entities: set<EntityKey>)
    ensures CanInsert(nodes, keys, kind, p, key, entities) ==> ValidName(NameOf(key))
  {
    hide ValidName;
  }

  lemma UpdateHasRow(nodes: Nodes, keys: Keys, i: InodeId, key: EntityKey, entities: set<EntityKey>)
    requires keys.Keys == nodes.Keys && CanUpdate(nodes, keys, i, key, entities)
    ensures i in nodes && keys[i].id == key.id && KindOf(key) == nodes[i].kind
  {
  }

  lemma SavedBlobs(entities: set<EntityKey>, before: set<EntityKey>, blobs: set<nat>)
    requires entities == before && BlobsKnown(before, blobs)
    ensures BlobsKnown(entities, blobs)
  {
  }

  lemma ConsistentCloses(nodes: Nodes, keys: Keys, dirty: set<InodeId>)
    requires keys.Keys == nodes.Keys && Consistent(nodes, keys, dirty)
    ensures Closed(nodes, dirty)
  {
  }

  lemma ConfigSet(listed: map<Head, CommitId>, heads: Heads, c: Config)
    requires SameHeads(listed, heads) && c.heads == listed
    ensures ConfigFits(Some(c), heads)
  {
  }

  lemma HeadCommitFits(heads: Heads, commits: set<CommitId>, entities: set<EntityKey>, head: Head)
    requires HeadsFit(heads, commits) && CommitsFit(commits, entities) && CurrentCommit(heads, head).Some?
    ensures var c := CurrentCommit(heads, head).value; c in commits && c.HashOf? && c.commit.entity in entities
  {
  }

  lemma KeysAreHeld(keys: Keys, inodes: set<InodeId>)
    ensures forall k :: k in KeysOf(keys, inodes) ==> exists i :: i in keys && keys[i] == k
  {
  }

  lemma NoCurrent(heads: Heads, head: Head)
    ensures heads == map[] ==> CurrentCommit(heads, head) == None
    ensures head.name in heads && heads[head.name].isBranch == head.Branch? <==> CurrentCommit(heads, head).Some?
    ensures CurrentCommit(heads, head).Some? ==> CurrentCommit(heads, head) == Some(heads[head.name].commit)
  {
  }

  /** After `set_config` the table shows the head's tree, and if this code committed it, the pass has nothing
      to change. */
  /** The heads that `c` lists, and `c` under its head's name; a branch head has moved on if the root's key is
      another one. */
  ghost predicate TakenHeads(c: Config, head: Head, config: Option<Config>, heads: Heads, keys: Keys, now: int)
    requires head in c.heads && c.heads[head].HashOf?
  {
    && HeadsFrom(c, head, config, heads, keys, now) && config.Some? && config.value.head == head.name
    && (forall h :: h in c.heads && h != head ==> h.name in heads && heads[h.name] == HeadRow(h.Branch?, c.heads[h]))
    && (forall n :: n in heads ==> (if heads[n].isBranch then Branch(n) else Tag(n)) in c.heads)
    && (config == Some(c.(head := head.name)) || (config.value.lastModified == now && !config.value.synced))
    && (head.Tag? || CommittedHere(c.heads[head].commit.entity) ==>
          SameHeads(c.heads, heads) && config == Some(c.(head := head.name)))
  }

  ghost predicate HeadsFrom(c: Config, head: Head, config: Option<Config>, heads: Heads, keys: Keys, now: int) {
    exists listed: Heads ::
      && SameHeads(c.heads, listed)
      && (if head.Branch? then HeadMoves(listed, heads, head.name, keys, now) else heads == listed)
      && ConfigMoves(Some(c.(head := head.name)), config, listed, heads, now)
  }

  /** The tree that `root` unfolds into, but for the directories that a pass has listed anew: none, if it is
      a tree that this code committed. */
  ghost predicate TakenTree(root: EntityKey, nodes: Nodes, keys: Keys) {
    && (exists k, marked :: UnfoldsFrom(root, nodes, k) && Rebodied(nodes, k, marked, keys))
    && (CommittedHere(root) ==> CommittedFrom(root, nodes, keys))
  }

  /** A tag's volume that is at the tag's commit already keeps its tree. */
  ghost predicate TreeFollows(c: Config, head: Head, was: Heads, n: Nodes, k: Keys, nodes: Nodes, keys: Keys)
    requires head in c.heads && c.heads[head].HashOf?
  {
    if head.Tag? && CurrentCommit(was, head) == Some(c.heads[head]) then nodes == n && keys == k
    else TakenTree(c.heads[head].commit.entity, nodes, keys)
  }

  lemma TreeTaken(root: EntityKey, nodes: Nodes, k: Keys, marked: set<InodeId>, keys: Keys)
    requires UnfoldsFrom(root, nodes, k) && Rebodied(nodes, k, marked, keys)
    requires CommittedHere(root) ==> CommittedFrom(root, nodes, keys)
    ensures TakenTree(root, nodes, keys)
  {
    hide UnfoldsFrom, Rebodied, CommittedHere, CommittedFrom;
  }

  lemma HeadsTaken(c: Config, head: Head, listed: Heads, heads: Heads, config: Option<Config>, keys: Keys, now: int)
    requires SameHeads(c.heads, listed) && head in c.heads && c.heads[head].HashOf?
    requires if head.Branch? then HeadMoves(listed, heads, head.name, keys, now) else heads == listed
    requires ConfigMoves(Some(c.(head := head.name)), config, listed, heads, now)
    requires CommittedHere(c.heads[head].commit.entity) ==> heads == listed
    ensures TakenHeads(c, head, config, heads, keys, now)
    ensures config.Some? && (config.value.lastModified == c.lastModified || config.value.lastModified == now)
  {
    hide SameHeads, HeadMoves, ConfigMoves, CommittedHere;
    HeadsAfterTaking(c, head, Some(c.(head := head.name)), listed, heads, config, keys, now);
    assert HeadsFrom(c, head, config, heads, keys, now);
  }

  lemma ShownIsRight(c: Columns, root: EntityKey, kept: bool, isBranch: bool)
    requires Fit(c) && c.keys.Keys == c.nodes.Keys && Consistent(c.nodes, c.keys, c.dirty)
    requires !kept ==> UnfoldsFrom(root, c.nodes, c.keys)
    requires kept ==> c.dirty == {}
    requires kept && isBranch ==> RootInode in c.keys && c.keys[RootInode] == root
    ensures !kept || isBranch ==> RootInode in c.keys && UnfoldsFrom(root, c.nodes, c.keys)
    ensures (!kept || isBranch) && CommittedHere(root) ==>
      RootInode in c.keys && c.keys[RootInode] == root && CommittedFrom(root, c.nodes, c.keys)
      && forall after :: Snapshot(c.nodes, c.keys, c.dirty, after) ==> after == c.keys
  {
    hide Fit, Consistent, UnfoldsFrom, CommittedFrom, CommittedHere, Snapshot;
    if !kept { UnfoldedRoot(root, c.nodes, c.keys); }
    if kept && isBranch { SettledUnfolds(c); }
    if (!kept || isBranch) && CommittedHere(root) {
      CheckedOut(c, root);
      CommittedRoot(root, c.nodes, c.keys);
    }
  }

  /** The directories whose listing a move changes, and those above them. */
  ghost function MarksOfMove(nodes: Nodes, i: InodeId, p: InodeId): set<InodeId> {
    if i in nodes && nodes[i].parent.Some? && nodes[i].parent != Some(p)
    then Upward(Moved(nodes, i, p), p) + Upward(Moved(nodes, i, p), ParentOf(nodes, i)) else {}
  }

  ghost function MarksOfDelete(nodes: Nodes, i: InodeId): set<InodeId> {
    if i in nodes && nodes[i].parent.Some? then Upward(nodes - Subtree(nodes, i), ParentOf(nodes, i)) else {}
  }

  /** Two heads of one branch are the same exactly if they are of the same root. */
  lemma HeadTells(heads: Heads, branch: Option<string>, keys: Keys)
    ensures branch.Some? && AtHead(heads, branch.value, keys) ==>
              RootInode in keys && CurrentCommit(heads, Branch(branch.value)).Some?
              && forall after, keys', now :: HeadMoves(heads, after, branch.value, keys', now) ==>
                   RootInode in keys' && (after == heads <==> keys'[RootInode] == keys[RootInode])
  {
  }

  lemma NoMarks(c: Columns, i: InodeId)
    requires Fit(c)
    ensures i in c.nodes && i != RootInode ==> c.nodes[i].parent.Some?
  {
    FitTree(c);
    if i in c.nodes { assert Parented(c.nodes, i); }
  }

  lemma NewNotAbove(c: Columns, i: InodeId, p: InodeId)
    requires Fit(c) && i in c.nodes && i != RootInode && c.nodes[i].parent == Some(p)
    ensures i !in Upward(c.nodes, p)
  {
    FitTree(c);
    ParentNotBelow(c.nodes, i);
  }

  /** An inode without a mark keeps its entity through the pass. */
  lemma UpdatedKey(nodes: Nodes, stated: Keys, marks: set<InodeId>, keys: Keys, i: InodeId)
    requires Rebodied(nodes, stated, marks, keys) && i in nodes && i !in marks
    ensures i in keys && i in stated && keys[i] == stated[i]
  {
  }

  lemma FileBlob(keys: Keys, entities: set<EntityKey>, blobs: set<nat>, i: InodeId)
    requires Registered(keys, entities) && BlobsKnown(entities, blobs) && i in keys && keys[i].revision.FileRevision?
    ensures keys[i].revision.blob in blobs
  {
  }

  lemma StockedBlob(was: Stock, blob: nat, now: Stock, heads: Heads, keys: Keys)
    requires Stocked(was.(blobs := was.blobs + {blob}), now, heads, keys, {})
    ensures Stocked(was, now, heads, keys, {blob})
  {
  }

  lemma StockedKey(was: Stock, more: set<EntityKey>, stated: Stock, now: Stock, heads: Heads, keys: Keys)
    requires stated == was.(entities := was.entities + more) && Stocked(stated, now, heads, keys, {})
    requires forall k :: k in more ==> exists i :: i in keys && keys[i] == k
    ensures Stocked(was, now, heads, keys, {})
  {
  }

  lemma StockedLess(was: Stock, left: Stock, before: Heads, stated: Keys, now: Stock, heads: Heads, keys: Keys)
    requires Stocked(left, now, heads, keys, {}) && Collected(was, left, before, stated)
    ensures Stocked(was, now, heads, keys, {})
  {
  }

  lemma StockedUpdate(rows: Stock, key: EntityKey, stated: Stock, left: Stock, wasHeads: Heads, wasKeys: Keys, i: InodeId,
                      now: Stock, heads: Heads, keys: Keys)
    requires stated == rows.(entities := rows.entities + {key}) && Collected(stated, left, wasHeads, wasKeys[i := key])
    requires Stocked(left, now, heads, keys, {}) && i in keys && keys[i] == key
    ensures Stocked(rows, now, heads, keys, {})
  {
    hide Stocked, Collected;
    StockedLess(stated, left, wasHeads, wasKeys[i := key], now, heads, keys);
    StockedKey(rows, {key}, stated, now, heads, keys);
  }

  lemma RootIsDir(c: Columns)
    requires Fit(c)
    ensures RootInode in c.keys ==> KindOf(c.keys[RootInode]).Dir?
  {
    FitTree(c);
  }

  lemma RewrittenRows(was: Stock, keys: Keys, dirty: set<InodeId>, gained: set<CommitId>, now: Stock)
    requires now == was.(entities := was.entities + KeysOf(keys, dirty), commits := was.commits + gained)
    ensures now == WithNew(was, KeysOf(keys, dirty), gained)
    ensures dirty == {} ==> now == was.(commits := now.commits)
  {
    assert dirty == {} ==> KeysOf(keys, dirty) == {};
  }

  lemma FewerBlobs(saved: set<EntityKey>, entities: set<EntityKey>, blobs: set<nat>)
    requires BlobsKnown(entities, blobs) && saved <= entities
    ensures BlobsKnown(saved, blobs)
  {
  }

  lemma UpdatedMarks(c: Columns, i: InodeId, key: EntityKey)
    requires Fit(c) && c.dirty == {} && i in c.nodes && i in c.keys
    ensures var n := Renamed(c.nodes, i, NameOf(key)); var marked := MarksAfterUpdate(c.nodes, c.keys, {}, i, key);
            i !in marked && Directories(n, marked) && Closed(c.nodes, {}) && Closed(n, marked)
  {
    UpdateMarks(c.nodes, c.keys, {}, i, key);
  }

  /** An accepted update of a clean table and the pass behind it change the root's key exactly if they
      change anything: another key of the inode changes the keys of all its ancestors. */
  lemma UpdateRises(c: Columns, i: InodeId, key: EntityKey, n: Nodes, marked: set<InodeId>, after: Keys)
    requires Fit(c) && c.dirty == {} && c.keys.Keys == c.nodes.Keys && Consistent(c.nodes, c.keys, {})
    requires i in c.nodes && c.keys[i].id == key.id && KindOf(key) == c.nodes[i].kind
    requires n == Renamed(c.nodes, i, NameOf(key)) && marked == MarksAfterUpdate(c.nodes, c.keys, {}, i, key)
    requires Snapshot(n, c.keys[i := key], marked, after)
    ensures RootInode in c.keys && RootInode in after
    ensures after[RootInode] == c.keys[RootInode] <==> n == c.nodes && after == c.keys
  {
    hide Fit, Consistent, Closed, Directories, Tracked, Snapshot, Tree, Named, MarksAfterUpdate, MarkedAbove;
    SettledTree(c, i);
    UpdatedMarks(c, i, key);
    if key == c.keys[i] {
      SameKeyUpdate(c, i);
      SnapshotOfNone(n, c.keys, after);
    } else {
      SameLinksTree(c.nodes, n);
      MarkedToRoot(c, i, key);
      RenamedHashed(c.nodes, c.keys, i, NameOf(key));
      SnapshotIds(n, c.keys, c.keys[i := key], marked, after);
      UnmarkedKey(n, c.keys[i := key], marked, after, i);
      ChangeRises(n, c.keys, c.keys[i := key], marked, after, i);
    }
  }

  lemma SettledTree(c: Columns, i: InodeId)
    requires Fit(c) && c.keys.Keys == c.nodes.Keys && i in c.nodes && Consistent(c.nodes, c.keys, {})
    ensures Tree(c.nodes) && RootInode in c.nodes && UniqueIds(c.keys) && Tracked(c.nodes, c.keys, {})
  {
    hide Tracked, Closed;
    FitTree(c);
  }

  lemma SameKeyUpdate(c: Columns, i: InodeId)
    requires Fit(c) && c.keys.Keys == c.nodes.Keys && i in c.nodes
    ensures Renamed(c.nodes, i, NameOf(c.keys[i])) == c.nodes && c.keys[i := c.keys[i]] == c.keys
    ensures MarksAfterUpdate(c.nodes, c.keys, {}, i, c.keys[i]) == {}
  {
    hide PathsFit, Directories, Tree, Named, UniqueIds, KindOf, NameOf;
    assert NameOf(c.keys[i]) == c.nodes[i].name;
  }

  lemma UnmarkedKey(n: Nodes, start: Keys, marked: set<InodeId>, after: Keys, i: InodeId)
    requires Snapshot(n, start, marked, after) && i in n && i !in marked
    ensures after.Keys == n.Keys && after[i] == start[i]
  {
    hide Rewritten;
  }

  lemma MarkedToRoot(c: Columns, i: InodeId, key: EntityKey)
    requires Tree(c.nodes) && i in c.nodes && i in c.keys && key != c.keys[i]
    ensures MarkedAbove(Renamed(c.nodes, i, NameOf(key)), MarksAfterUpdate(c.nodes, c.keys, {}, i, key), i)
  {
    assert Parented(c.nodes, i);
    if i != RootInode { ParentIsMarked(c.nodes, c.keys, {}, i, key); }
  }

  lemma RenamedHashed(nodes: Nodes, keys: Keys, i: InodeId, name: string)
    requires keys.Keys == nodes.Keys && i in nodes && Tracked(nodes, keys, {})
    ensures Tracked(Renamed(nodes, i, name), keys, {})
  {
    hide Hashed, ChildKeys;
    var n := Renamed(nodes, i, name);
    forall p | p in n && n[p].kind.Dir? ensures Hashed(n, keys, p) {
      SameChildKeysRenamed(nodes, keys, i, name, p);
      SameChildrenHashed(nodes, keys, n, keys, p);
    }
  }

  lemma SameChildKeysRenamed(nodes: Nodes, keys: Keys, i: InodeId, name: string, p: InodeId)
    requires keys.Keys == nodes.Keys && i in nodes
    ensures ChildKeys(Renamed(nodes, i, name), keys, p) == ChildKeys(nodes, keys, p)
  {
    assert forall c :: ChildOf(Renamed(nodes, i, name), p, c) <==> ChildOf(nodes, p, c);
  }

  lemma SnapshotIds(n: Nodes, before: Keys, start: Keys, marked: set<InodeId>, after: Keys)
    requires Snapshot(n, start, marked, after) && before.Keys == n.Keys
    requires forall q :: q in n ==> start[q].id == before[q].id
    ensures forall q :: q in n ==> after[q].id == before[q].id
  {
    hide DistinctIds, ChildKeys, SortedEntries;
    forall q | q in n ensures after[q].id == before[q].id {
      assert q in marked ==> Rewritten(n, start, after, q);
    }
  }

  ghost predicate CommittedHere(root: EntityKey) {
    exists n, k :: CommittedFrom(root, n, k)
  }

  lemma UnfoldedRoot(root: EntityKey, n: Nodes, k: Keys)
    requires UnfoldsFrom(root, n, k)
    ensures RootInode in k
  {
  }

  lemma CommittedRoot(root: EntityKey, n: Nodes, k: Keys)
    requires CommittedFrom(root, n, k)
    ensures RootInode in k && k[RootInode] == root
  {
  }

  lemma SnapshotOfNone(nodes: Nodes, before: Keys, after: Keys)
    requires Snapshot(nodes, before, {}, after)
    ensures after == before
  {
    hide Rewritten;
  }

  /** A checked-out tree that this code committed needs no rewriting. */
  lemma CheckedOut(c: Columns, root: EntityKey)
    requires UnfoldsFrom(root, c.nodes, c.keys) && Fit(c) && c.keys.Keys == c.nodes.Keys
    requires CommittedHere(root)
    ensures CommittedFrom(root, c.nodes, c.keys)
    ensures forall after :: Snapshot(c.nodes, c.keys, c.dirty, after) ==> after == c.keys
  {
    var n, k :| CommittedFrom(root, n, k);
    CommittedIsUnfolded(n, k);
    RootKeyDetermines(c.nodes, c.keys, n, k);
    hide Tree, Named, Unfolded, Hashed, Snapshot, PathsFit;
    forall after | Snapshot(c.nodes, c.keys, c.dirty, after) ensures after == c.keys {
      assert forall i :: i in c.dirty ==> i in c.nodes && KindOf(c.keys[i]).Dir? && Hashed(c.nodes, c.keys, i);
      SnapshotOfHashed(c.nodes, c.keys, c.dirty, after);
    }
  }

  lemma RootWalks(nodes: Nodes)
    ensures Walk(nodes, []) == Some(RootInode)
  {
  }

  lemma OnlyRootIsSlash()
    ensures forall names :: ValidNames(names) && Join(names) == "/" ==> names == []
  {
    forall names | ValidNames(names) && Join(names) == "/" ensures names == [] {
      JoinEndsInName(names);
    }
  }

  /** What a right answer shows of an inode: its parent, its path in the tree, its entity, and whether that is
      stored remotely. */
  lemma ViewShows(c: Columns, synced: set<EntityKey>, i: InodeId, r: Option<View>)
    requires Fit(c) && InodeAnswer(ViewsOf(c.nodes, c.keys, c.paths, synced), i, r)
    ensures r.Some? <==> i in c.nodes
    ensures r.Some? ==>
      && Tree(c.nodes) && i in c.keys && r.value.parent == c.nodes[i].parent && r.value.path == Some(Path(c.nodes, i))
      && r.value.key == c.keys[i] && (r.value.synced <==> c.keys[i] in synced)
  {
    FitTree(c);
    hide Tree, Shaped, Path;
  }

  /** Answers of the path column are walks. */
  lemma AnswerIsWalk(c: Columns, synced: set<EntityKey>, path: string, r: Option<InodeId>)
    requires Fit(c) && PathAnswer(ViewsOf(c.nodes, c.keys, c.paths, synced), path, r)
    ensures c.nodes != map[] ==> forall names :: ValidNames(names) && Join(names) == path ==> r == Walk(c.nodes, names)
  {
    if c.nodes != map[] {
      forall names | ValidNames(names) && Join(names) == path ensures r == Walk(c.nodes, names) {
        AnswerIsWalkOf(c, synced, path, r, names);
      }
    }
  }

  lemma AnswerIsWalkOf(c: Columns, synced: set<EntityKey>, path: string, r: Option<InodeId>, names: seq<string>)
    requires Fit(c) && PathAnswer(ViewsOf(c.nodes, c.keys, c.paths, synced), path, r)
    requires c.nodes != map[] && ValidNames(names) && Join(names) == path
    ensures r == Walk(c.nodes, names)
  {
    FitTree(c);
    FitNamed(c);
    hide Tree, Named, PathsRight, Join, ValidNames, Walk, Shaped, Directories;
    var w := Walk(c.nodes, names);
    if r.Some? {
      LookupIsWalk(c.nodes, c.paths, names, r.value);
    }
    if w.Some? {
      LookupIsWalk(c.nodes, c.paths, names, w.value);
      assert w.value in ViewsOf(c.nodes, c.keys, c.paths, synced);
    }
  }

  /** The root is the wanted one, or nothing stands in the way of rebuilding the tree under it. */
  ghost predicate CanShow(root: EntityKey, keys: Keys, handles: map<nat, InodeId>) {
    (RootInode in keys && keys[RootInode] == root) || (handles == map[] && exists n, k :: UnfoldsFrom(root, n, k))
  }

  /** A tree in which every directory is up to date, as every commit leaves it. */
  ghost predicate CommittedFrom(root: EntityKey, n: Nodes, k: Keys) {
    Tree(n) && Named(n) && Keyed(n, k) && Tracked(n, k, {}) && k[RootInode] == root
  }

  lemma SettledUnfolds(c: Columns)
    requires Fit(c) && c.keys.Keys == c.nodes.Keys && RootInode in c.keys && c.dirty == {}
    requires Consistent(c.nodes, c.keys, c.dirty)
    ensures UnfoldsFrom(c.keys[RootInode], c.nodes, c.keys)
  {
    hide Tracked;
    CommittedIsUnfolded(c.nodes, c.keys);
  }
}
