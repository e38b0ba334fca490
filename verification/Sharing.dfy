/** From one volume to another: a push uploads every row that is referred to, and a new volume that pulls
    the upload shows the same tree (janus-vfs/src/sync/push.rs, sync/pull.rs, vfs/mod.rs 617-670). */
module Sharing {
  import opened Wrappers
  import opened Trees
  import opened Marks
  import opened Entities
  import opened Merkle
  import opened TableSteps
  import opened ChangeLog
  import opened Statements
  import opened VfsTable
  import opened Checkout
  import opened DirtyPass
  import opened Heads
  import opened Transactions

  /** What the remote storage holds of a volume, with its newest configuration. */
  datatype Remote = Remote(blobs: set<nat>, entities: set<EntityKey>, commits: set<CommitId>, config: Config)

  ghost predicate ClosedRemote(r: Remote) {
    && (forall k :: k in r.entities ==> ValidName(NameOf(k)) && RefsKnown(k, r.entities, r.blobs))
    && CommitsFit(r.commits, r.entities)
    && (forall h :: h in r.config.heads ==> r.config.heads[h] in r.commits)
    && (forall g, h :: g in r.config.heads && h in r.config.heads && g.name == h.name ==> g == h)
  }

  // ---------- pushing ----------

  lemma StillUnused(s: Stock, heads: Heads, keys: Keys)
    requires forall c :: c in s.commits && c !in s.syncedCommits ==> UnusedCommit(heads, c)
    requires forall k :: k in s.entities && k !in s.synced ==> UnusedEntity(s.commits, s.entities, keys, k)
    requires forall b :: b in s.blobs && b !in s.syncedBlobs ==> UnusedBlob(s.entities, b)
    ensures AllSynced(s, heads, keys)
  {
  }

  /** Every row that something refers to is synced. */
  ghost predicate AllSynced(s: Stock, heads: Heads, keys: Keys) {
    && (forall c :: c in s.commits && c !in s.syncedCommits ==> CommitUnused(s, heads, c))
    && (forall k :: k in s.entities && k !in s.synced ==> EntityUnused(s, keys, k))
    && (forall b :: b in s.blobs && b !in s.syncedBlobs ==> BlobUnused(s, b))
  }

  /** What is uploaded then refers to nothing outside of it. */
  lemma PushedIsClosed(s: Stock, heads: Heads, keys: Keys, c: Config)
    requires AllSynced(s, heads, keys) && Registered(keys, s.entities) && BlobsKnown(s.entities, s.blobs)
    requires CommitsFit(s.commits, s.entities) && HeadsFit(heads, s.commits) && SameHeads(c.heads, heads)
    requires s.syncedCommits <= s.commits && s.synced <= s.entities && s.syncedBlobs <= s.blobs
    ensures ClosedRemote(Remote(s.syncedBlobs, s.synced, s.syncedCommits, c))
  {
    hide ValidName, SameHeads, HeadsFit, AllSynced, RefsKnown;
    forall k | k in s.synced ensures ValidName(NameOf(k)) && RefsKnown(k, s.synced, s.syncedBlobs) {
      EntriesSynced(s, heads, keys, k);
    }
    ListedAreSynced(s, heads, keys, c);
    CommitsSynced(s, heads, keys);
  }

  lemma CommitsSynced(s: Stock, heads: Heads, keys: Keys)
    requires AllSynced(s, heads, keys) && CommitsFit(s.commits, s.entities) && s.syncedCommits <= s.commits
    ensures CommitsFit(s.syncedCommits, s.synced)
  {
  }

  lemma ListedAreSynced(s: Stock, heads: Heads, keys: Keys, c: Config)
    requires AllSynced(s, heads, keys) && HeadsFit(heads, s.commits) && SameHeads(c.heads, heads)
    ensures forall h :: h in c.heads ==> c.heads[h] in s.syncedCommits
    ensures forall g, h :: g in c.heads && h in c.heads && g.name == h.name ==> g == h
  {
    hide SameHeads;
    forall h | h in c.heads ensures c.heads[h] in s.syncedCommits {
      ListedHead(c.heads, heads, h);
    }
    forall g, h | g in c.heads && h in c.heads && g.name == h.name ensures g == h {
      ListedHead(c.heads, heads, g);
      ListedHead(c.heads, heads, h);
    }
  }

  lemma EntriesSynced(s: Stock, heads: Heads, keys: Keys, k: EntityKey)
    requires AllSynced(s, heads, keys) && Registered(keys, s.entities) && BlobsKnown(s.entities, s.blobs)
    requires k in s.entities
    ensures RefsKnown(k, s.synced, s.syncedBlobs)
  {
    forall e | e in EntriesOf(k) ensures e in s.synced { assert e in s.entities; }
  }

  /** A push of everything that is referred to, and of the configuration; the tree and the heads stay. */
  method Push(v: Volume, now: int)
    requires v.Settled() && !v.readOnly && v.config.Some?
    modifies v, v.table
    ensures v.Settled() && v.heads == old(v.heads) && v.config == Some(old(v.config).value.(synced := true))
    ensures v.table.nodes == old(v.table.nodes) && v.table.keys == old(v.table.keys)
    ensures AllSynced(v.Rows(), v.heads, v.table.keys)
    ensures ClosedRemote(Remote(v.table.syncedBlobs, v.table.synced, v.syncedCommits, v.config.value))
  {
    hide Consistent, Fit, Logged, ViewsOf, HandlesFit, CommitsFit, HeadsFit, BlobsKnown, Closed, Registered, Agree;
    hide AtHead, SameHeads, ClosedRemote, CommitUnused, EntityUnused, BlobUnused;
    PushBlobs(v, now);
    PushEntities(v, now);
    PushCommits(v, now);
    var recorded := v.RecordConfig(v.config.value, now);
    StillUnused(v.Rows(), v.heads, v.table.keys);
    PushedIsClosed(v.Rows(), v.heads, v.table.keys, v.config.value);
  }

  method PushBlobs(v: Volume, now: int)
    requires v.Settled() && !v.readOnly
    modifies v, v.table
    ensures v.Settled() && v.heads == old(v.heads) && v.config == old(v.config)
    ensures v.table.nodes == old(v.table.nodes) && v.table.keys == old(v.table.keys)
    ensures v.Rows() == old(v.Rows()).(syncedBlobs := v.table.syncedBlobs)
    ensures forall b :: b in v.table.blobs && b !in v.table.syncedBlobs ==> UnusedBlob(v.table.entities, b)
  {
    hide Consistent, Fit, Logged, ViewsOf, HandlesFit, CommitsFit, HeadsFit, BlobsKnown, Closed, Registered, Agree;
    hide AtHead, SameHeads, ConfigFits, UnusedBlob;
    var entities := v.table.entities;
    var rest: set<nat> := set b: nat | b in v.table.blobs && b !in v.table.syncedBlobs && !UnusedBlob(entities, b);
    while rest != {}
      invariant v.Settled() && v.heads == old(v.heads) && v.config == old(v.config)
      invariant v.table.nodes == old(v.table.nodes) && v.table.keys == old(v.table.keys)
      invariant v.Rows() == old(v.Rows()).(syncedBlobs := v.table.syncedBlobs)
      invariant forall b :: b in v.table.blobs && b !in v.table.syncedBlobs ==> b in rest || UnusedBlob(entities, b)
      decreases |rest|
    {
      var b :| b in rest;
      var recorded := v.RecordBlob(b, now);
      rest := rest - {b};
    }
  }

  method PushEntities(v: Volume, now: int)
    requires v.Settled() && !v.readOnly
    modifies v, v.table
    ensures v.Settled() && v.heads == old(v.heads) && v.config == old(v.config)
    ensures v.table.nodes == old(v.table.nodes) && v.table.keys == old(v.table.keys)
    ensures v.Rows() == old(v.Rows()).(synced := v.table.synced)
    ensures forall k :: k in v.table.entities && k !in v.table.synced ==>
              UnusedEntity(v.commits, v.table.entities, v.table.keys, k)
  {
    hide Consistent, Fit, Logged, ViewsOf, HandlesFit, CommitsFit, HeadsFit, BlobsKnown, Closed, Registered, Agree;
    hide AtHead, SameHeads, ConfigFits, UnusedEntity, InodeAnswer;
    var commits, entities, keys := v.commits, v.table.entities, v.table.keys;
    var rest := set k | k in entities && k !in v.table.synced && !UnusedEntity(commits, entities, keys, k);
    while rest != {}
      invariant v.Settled() && v.heads == old(v.heads) && v.config == old(v.config)
      invariant v.table.nodes == old(v.table.nodes) && v.table.keys == old(v.table.keys)
      invariant v.Rows() == old(v.Rows()).(synced := v.table.synced)
      invariant forall k :: k in entities && k !in v.table.synced ==> k in rest || UnusedEntity(commits, entities, keys, k)
      decreases |rest|
    {
      var k :| k in rest;
      var recorded := v.RecordSynced([k], now);
      rest := rest - {k};
    }
  }

  method PushCommits(v: Volume, now: int)
    requires v.Settled() && !v.readOnly
    modifies v, v.table
    ensures v.Settled() && v.heads == old(v.heads) && v.config == old(v.config)
    ensures v.table.nodes == old(v.table.nodes) && v.table.keys == old(v.table.keys)
    ensures v.Rows() == old(v.Rows()).(syncedCommits := v.syncedCommits)
    ensures forall c :: c in v.commits && c !in v.syncedCommits ==> UnusedCommit(v.heads, c)
  {
    hide Consistent, Fit, Logged, ViewsOf, HandlesFit, CommitsFit, HeadsFit, BlobsKnown, Closed, Registered, Agree;
    hide AtHead, SameHeads, ConfigFits, UnusedCommit;
    var heads := v.heads;
    var rest := set c | c in v.commits && c !in v.syncedCommits && !UnusedCommit(heads, c);
    while rest != {}
      invariant v.Settled() && v.heads == old(v.heads) && v.config == old(v.config)
      invariant v.table.nodes == old(v.table.nodes) && v.table.keys == old(v.table.keys)
      invariant v.Rows() == old(v.Rows()).(syncedCommits := v.syncedCommits)
      invariant forall c :: c in v.commits && c !in v.syncedCommits ==> c in rest || UnusedCommit(heads, c)
      decreases |rest|
    {
      var c :| c in rest;
      var recorded := v.RecordCommit(c, now);
      rest := rest - {c};
    }
  }

  // ---------- pulling ----------

  /** Each entity stands behind what it lists. */
  ghost predicate EntriesFirst(order: seq<EntityKey>) {
    forall i, e :: 0 <= i < |order| && e in EntriesOf(order[i]) ==> e in order[..i]
  }

  lemma OneLess<T>(all: set<T>, rest: set<T>, x: T)
    requires rest <= all && x in rest
    ensures all - (rest - {x}) == (all - rest) + {x} && x !in all - rest
  {
  }

  method PullBlobs(v: Volume, blobs: set<nat>, now: int)
    requires v.Settled() && v.table.syncedBlobs == {}
    modifies v, v.table
    ensures v.Settled() && v.heads == old(v.heads) && v.config == old(v.config)
    ensures v.table.handles == old(v.table.handles)
    ensures v.Rows() == old(v.Rows()).(blobs := old(v.table.blobs) + blobs, syncedBlobs := blobs)
  {
    hide Consistent, Fit, Logged, ViewsOf, HandlesFit, CommitsFit, HeadsFit, BlobsKnown, Closed, Registered, Agree;
    hide AtHead, SameHeads, ConfigFits;
    var rest := blobs;
    while rest != {}
      invariant v.Settled() && v.heads == old(v.heads) && v.config == old(v.config) && rest <= blobs
      invariant v.table.handles == old(v.table.handles)
      invariant v.Rows() == old(v.Rows()).(blobs := v.table.blobs, syncedBlobs := v.table.syncedBlobs)
      invariant v.table.blobs == old(v.table.blobs) + (blobs - rest) && v.table.syncedBlobs == blobs - rest
      decreases |rest|
    {
      var b :| b in rest;
      var received := v.ReceiveBlob(b, true, now);
      OneLess(blobs, rest, b);
      rest := rest - {b};
    }
  }

  method PullEntities(v: Volume, order: seq<EntityKey>, now: int)
    requires v.Settled() && EntriesFirst(order)
    requires forall k :: k in order ==> ValidName(NameOf(k)) && (k.revision.FileRevision? ==> k.revision.blob in v.table.blobs)
    modifies v, v.table
    ensures v.Settled() && v.heads == old(v.heads) && v.config == old(v.config)
    ensures v.table.handles == old(v.table.handles)
    ensures v.Rows() == old(v.Rows()).(entities := v.table.entities, synced := v.table.synced)
    ensures forall k :: k in order ==> k in v.table.entities
  {
    hide Consistent, Fit, Logged, ViewsOf, HandlesFit, CommitsFit, HeadsFit, BlobsKnown, Closed, Registered, Agree;
    hide AtHead, SameHeads, ConfigFits, ValidName;
    for n := 0 to |order|
      invariant v.Settled() && v.heads == old(v.heads) && v.config == old(v.config)
      invariant v.table.handles == old(v.table.handles)
      invariant v.Rows() == old(v.Rows()).(entities := v.table.entities, synced := v.table.synced)
      invariant forall k :: k in order[..n] ==> k in v.table.entities
    {
      assert order[n] in order && order[..n + 1] == order[..n] + [order[n]];
      var received := v.ReceiveEntity(order[n], now);
    }
    assert order[..|order|] == order;
  }

  method PullCommits(v: Volume, commits: set<CommitId>, now: int)
    requires v.Settled() && v.syncedCommits == {} && CommitsFit(commits, v.table.entities)
    modifies v, v.table
    ensures v.Settled() && v.heads == old(v.heads) && v.config == old(v.config)
    ensures v.table.handles == old(v.table.handles)
    ensures v.Rows() == old(v.Rows()).(commits := old(v.commits) + commits, syncedCommits := commits)
  {
    hide Consistent, Fit, Logged, ViewsOf, HandlesFit, CommitsFit, HeadsFit, BlobsKnown, Closed, Registered, Agree;
    hide AtHead, SameHeads, ConfigFits;
    ghost var entities := v.table.entities;
    var rest := commits;
    while rest != {}
      invariant v.Settled() && v.heads == old(v.heads) && v.config == old(v.config) && rest <= commits
      invariant v.table.handles == old(v.table.handles)
      invariant v.Rows() == old(v.Rows()).(commits := v.commits, syncedCommits := v.syncedCommits)
      invariant v.commits == old(v.commits) + (commits - rest) && v.syncedCommits == commits - rest
      decreases |rest|
    {
      var c :| c in rest;
      CommitFits(commits, entities, c);
      var received := v.ReceiveCommit(c.commit, now);
      OneLess(commits, rest, c);
      rest := rest - {c};
    }
  }

  lemma CommitFits(commits: set<CommitId>, entities: set<EntityKey>, c: CommitId)
    requires CommitsFit(commits, entities) && c in commits
    ensures c.HashOf? && c.commit.entity in entities && KindOf(c.commit.entity).Dir?
  {
  }

  /** A new volume pulls all of a closed remote set, entities in any order that puts entries first, and then
      the configuration: it shows exactly the tree of the head's commit, and its heads are those listed. */
  method Pull(r: Remote, order: seq<EntityKey>, head: Head, readOnly: bool, now: int) returns (v: Volume)
    requires ClosedRemote(r) && head in r.config.heads && EntriesFirst(order) && forall k :: k in order <==> k in r.entities
    requires r.config.heads[head].HashOf? && CommittedHere(r.config.heads[head].commit.entity)
    ensures fresh(v) && fresh(v.table) && v.Settled() && v.config == Some(r.config.(head := head.name))
    ensures CommittedFrom(r.config.heads[head].commit.entity, v.table.nodes, v.table.keys)
    ensures SameHeads(r.config.heads, v.heads) && v.readOnly == (head.Tag? || readOnly)
  {
    hide Consistent, Fit, Logged, ViewsOf, HandlesFit, CommitsFit, HeadsFit, BlobsKnown, Closed, Registered, Agree;
    hide AtHead, SameHeads, ConfigFits, ValidName, UnfoldsFrom, CommittedFrom, CommittedHere, EntriesFirst;
    v := new Volume(if head.Branch? then Some(head.name) else None, readOnly);
    PullBlobs(v, r.blobs, now);
    PullEntities(v, order, now);
    MoreEntities(r.commits, r.entities, v.table.entities);
    PullCommits(v, r.commits, now);
    CommittedUnfolds(r.config.heads[head].commit.entity);
    assert v.table.handles == map[] && v.heads == map[] && v.config == None;
    var taken := v.PullConfig(r.config, head, now);
  }

  lemma CommittedUnfolds(root: EntityKey)
    requires CommittedHere(root)
    ensures exists n, k :: UnfoldsFrom(root, n, k)
  {
    var n, k :| CommittedFrom(root, n, k);
    CommittedIsUnfolded(n, k);
    assert UnfoldsFrom(root, n, k);
  }

  // ---------- both ----------

  /** Some entity of a non-empty set lists nothing in the set. */
  lemma {:induction false} SomeFirst(rest: set<EntityKey>, k: EntityKey)
    requires k in rest
    ensures exists f :: f in rest && NoneOf(rest, EntriesOf(f))
    decreases Size(k)
  {
    if !NoneOf(rest, EntriesOf(k)) {
      var i :| 0 <= i < |EntriesOf(k)| && EntriesOf(k)[i] in rest;
      SizeOfEntries(k);
      EntrySmaller(EntriesOf(k), i);
      SomeFirst(rest, EntriesOf(k)[i]);
    }
  }

  predicate NoneOf(rest: set<EntityKey>, s: seq<EntityKey>) {
    forall e :: e in s ==> e !in rest
  }

  lemma {:induction false} EntrySmaller(s: seq<EntityKey>, i: nat)
    requires i < |s|
    ensures Size(s[i]) <= SizeAll(s)
    decreases i
  {
    SizeStep(s, 0);
    assert s[0..] == s;
    if i > 0 { EntrySmaller(s[1..], i - 1); }
  }

  /** An order that puts entries first. */
  method Ordered(entities: set<EntityKey>) returns (order: seq<EntityKey>)
    requires forall k, e :: k in entities && e in EntriesOf(k) ==> e in entities
    ensures EntriesFirst(order) && forall k :: k in order <==> k in entities
  {
    order := [];
    var rest := entities;
    while rest != {}
      invariant rest <= entities && EntriesFirst(order) && forall k :: k in order <==> k in entities - rest
      decreases |rest|
    {
      var any :| any in rest;
      SomeFirst(rest, any);
      var k :| k in rest && NoneOf(rest, EntriesOf(k));
      OrderMore(order, k);
      order := order + [k];
      rest := rest - {k};
    }
  }

  lemma OrderMore(order: seq<EntityKey>, k: EntityKey)
    requires EntriesFirst(order) && forall e :: e in EntriesOf(k) ==> e in order
    ensures EntriesFirst(order + [k])
  {
    var more := order + [k];
    forall i, e | 0 <= i < |more| && e in EntriesOf(more[i]) ensures e in more[..i] {
      assert more[..i] == order[..i];
      assert i == |order| ==> order[..i] == order;
    }
  }

  lemma SettledIsCommitted(c: Columns)
    requires Fit(c) && c.keys.Keys == c.nodes.Keys && RootInode in c.keys && Consistent(c.nodes, c.keys, {})
    ensures CommittedFrom(c.keys[RootInode], c.nodes, c.keys) && CommittedHere(c.keys[RootInode])
  {
    FitTree(c);
    assert CommittedFrom(c.keys[RootInode], c.nodes, c.keys);
  }

  lemma SameCommitted(root: EntityKey, n: Nodes, k: Keys, m: Nodes, l: Keys)
    requires CommittedFrom(root, n, k) && CommittedFrom(root, m, l)
    ensures n == m && k == l
  {
    CommittedIsUnfolded(n, k);
    CommittedIsUnfolded(m, l);
    RootKeyDetermines(n, k, m, l);
  }

  lemma ClosedEntries(r: Remote)
    requires ClosedRemote(r)
    ensures forall k, e :: k in r.entities && e in EntriesOf(k) ==> e in r.entities
  {
    hide ValidName;
  }

  /** End to end: what one volume pushes, a new volume pulls, and it shows the same tree with the same keys
      under the same heads. */
  method Share(a: Volume, readOnly: bool, now: int) returns (b: Volume)
    requires a.Settled() && !a.readOnly && a.config.Some? && a.branch.Some?
    modifies a, a.table
    ensures a.Settled() && a.heads == old(a.heads)
    ensures a.table.nodes == old(a.table.nodes) && a.table.keys == old(a.table.keys)
    ensures fresh(b) && fresh(b.table) && b.Settled() && b.heads == a.heads
    ensures b.config == Some(a.config.value.(head := a.branch.value))
    ensures a.config == Some(old(a.config).value.(synced := true))
    ensures b.table.nodes == a.table.nodes && b.table.keys == a.table.keys
  {
    hide Consistent, Fit, Logged, ViewsOf, HandlesFit, CommitsFit, HeadsFit, BlobsKnown, Closed, Registered, Agree;
    hide SameHeads, ClosedRemote, CommittedFrom, CommittedHere, EntriesFirst;
    Push(a, now);
    var r := Remote(a.table.syncedBlobs, a.table.synced, a.syncedCommits, a.config.value);
    ClosedEntries(r);
    var order := Ordered(r.entities);
    var head := Branch(a.branch.value);
    HeadIsListed(r.config.heads, a.heads, head);
    SettledIsCommitted(a.table.Contents());
    b := Pull(r, order, head, readOnly, now);
    SameCommitted(a.table.keys[RootInode], a.table.nodes, a.table.keys, b.table.nodes, b.table.keys);
    SameListing(r.config.heads, a.heads, b.heads);
  }

  lemma HeadIsListed(listed: map<Head, CommitId>, heads: Heads, head: Head)
    requires SameHeads(listed, heads) && CurrentCommit(heads, head).Some?
    ensures head in listed && CurrentCommit(heads, head) == Some(listed[head])
  {
  }

  // ---------- two configurations ----------

  /** The later of a stored configuration and a pulled one. */
  ghost function Later(stored: Option<Config>, c: Config, head: Head): Option<Config> {
    if stored.Some? && c.lastModified <= stored.value.lastModified then stored else Some(c.(head := head.name))
  }

  /** Of two configurations pulled in either order the later one stands. */
  lemma LaterStands(stored: Option<Config>, a: Config, b: Config, head: Head)
    requires a.lastModified != b.lastModified
    ensures Later(Later(stored, a, head), b, head) == Later(Later(stored, b, head), a, head)
    ensures var last := Later(Later(stored, a, head), b, head);
            last.Some? && last.value.lastModified >= a.lastModified && last.value.lastModified >= b.lastModified
            && (stored.Some? ==> last.value.lastModified >= stored.value.lastModified)
  {
  }

  /** The head's tree is one that this code has committed. */
  ghost predicate ListsCommitted(c: Config, head: Head) {
    head in c.heads && c.heads[head].HashOf? ==> CommittedHere(c.heads[head].commit.entity)
  }

  /** Two pulled configurations: the volume has the later of what it had and what it took. */
  method PullTwo(v: Volume, a: Config, b: Config, head: Head, now: int)
    returns (first: Result<(), DbError>, second: Result<(), DbError>)
    requires v.Settled() && v.branch == if head.Branch? then Some(head.name) else None
    requires a.synced && b.synced && ListsCommitted(a, head) && ListsCommitted(b, head)
    modifies v, v.table
    ensures v.Settled()
    ensures var mid := if first.Ok? then Later(old(v.config), a, head) else old(v.config);
            v.config == if second.Ok? then Later(mid, b, head) else mid
  {
    hide Consistent, Fit, Logged, ViewsOf, HandlesFit, CommitsFit, HeadsFit, BlobsKnown, Closed, Registered, Agree;
    hide AtHead, SameHeads, ConfigFits, CommittedHere, CommittedFrom;
    first := v.PullConfig(a, head, now);
    second := v.PullConfig(b, head, now);
  }
}
