/** The change log and the caches it invalidates: if every inode whose view changed is in the log, then
    caches that agreed with the tables before a transaction agree with them after its commit
    (janus-vfs/src/db.rs, janus-vfs/migrations/202605201500_initial.sql, change_log_* triggers). */
module ChangeLog {
  import opened Wrappers
  import opened Trees
  import opened Entities
  import opened Merkle
  import opened PathIndex

  /** What `inode_by_id` shows of an inode: its row, and how its entity is stored. */
  datatype View = View(parent: Option<InodeId>, path: Option<string>, key: EntityKey, synced: bool)

  type Views = map<InodeId, View>

  function ViewsOf(nodes: Nodes, keys: Keys, paths: Paths, synced: set<EntityKey>): Views {
    map i | i in nodes && i in keys && i in paths :: View(nodes[i].parent, paths[i], keys[i], keys[i] in synced)
  }

  predicate SameView(a: Views, b: Views, i: InodeId) {
    (i in a <==> i in b) && (i in a ==> a[i] == b[i])
  }

  /** Whatever differs from the start of the transaction is in the log. */
  ghost predicate Logged(base: Views, now: Views, log: set<InodeId>) {
    forall i :: i !in log ==> SameView(base, now, i)
  }

  lemma LoggedStep(base: Views, was: Views, log: set<InodeId>, now: Views, log': set<InodeId>)
    requires Logged(base, was, log) && log <= log'
    requires forall i :: i !in log' ==> SameView(was, now, i)
    ensures Logged(base, now, log')
  {
  }

  lemma NothingLogged(now: Views)
    ensures Logged(now, now, {})
  {
  }

  /** `inode_cache` and `path_cache`; both also remember that there was nothing to find. */
  datatype Caches = Caches(inodes: map<InodeId, Option<View>>, paths: map<string, Option<InodeId>>)

  predicate InodeAnswer(views: Views, i: InodeId, r: Option<View>) {
    if r.Some? then i in views && views[i] == r.value else i !in views
  }

  predicate PathAnswer(views: Views, path: string, r: Option<InodeId>) {
    if r.Some? then r.value in views && views[r.value].path == Some(path)
    else forall i :: i in views ==> views[i].path != Some(path)
  }

  ghost predicate Agree(views: Views, c: Caches) {
    && (forall i :: i in c.inodes ==> InodeAnswer(views, i, c.inodes[i]))
    && (forall p :: p in c.paths ==> PathAnswer(views, p, c.paths[p]))
  }

  /** `Transaction::commit`, after the SQL commit: any logged inode empties the whole path cache, and the
      logged inodes leave the inode cache. */
  function Invalidated(c: Caches, log: set<InodeId>): Caches {
    if log == {} then c else Caches(c.inodes - log, map[])
  }

  /** Invalidation is sound. */
  lemma InvalidationSound(base: Views, now: Views, log: set<InodeId>, c: Caches)
    requires Agree(base, c) && Logged(base, now, log)
    ensures Agree(now, Invalidated(c, log))
  {
    if log == {} {
      forall i ensures (i in base <==> i in now) && (i in base ==> base[i] == now[i]) {
        assert SameView(base, now, i);
      }
      assert base == now;
    } else {
      forall i | i in c.inodes - log ensures InodeAnswer(now, i, c.inodes[i]) {
        assert SameView(base, now, i);
      }
    }
  }

  lemma InodeLoaded(views: Views, c: Caches, i: InodeId, r: Option<View>)
    requires Agree(views, c) && InodeAnswer(views, i, r)
    ensures Agree(views, c.(inodes := c.inodes[i := r]))
  {
  }

  lemma PathLoaded(views: Views, c: Caches, path: string, r: Option<InodeId>)
    requires Agree(views, c) && PathAnswer(views, path, r)
    ensures Agree(views, c.(paths := c.paths[path := r]))
  {
  }
}
