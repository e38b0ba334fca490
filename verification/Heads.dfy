/** Commits, heads and the configuration as values, and which rows nothing refers to
    (janus-vfs/src/vfs/commit.rs, vfs/config.rs). */
module Heads {
  import opened Wrappers
  import opened Trees
  import opened Entities
  import opened Merkle
  import opened Statements
  import opened VfsTable

  /** A commit's id is an ideal hash of the commit, so it is written as the term over it. */
  datatype CommitId = Zeroed | HashOf(commit: Commit)
  datatype Commit = Commit(entity: EntityKey, preceding: CommitId, count: nat, created: int)

  datatype Head = Branch(name: string) | Tag(name: string)
  datatype HeadRow = HeadRow(isBranch: bool, commit: CommitId)
  datatype Config = Config(head: string, lastModified: int, synced: bool, heads: map<Head, CommitId>)

  type Heads = map<string, HeadRow>

  datatype DbError =
    | StatementFailed | RootMissing | HeadEntryNotFound | CommitNotFound | HeadTypeFixed | ConfigHeadFixed
    | ReadOnlyFileSystem

  /** `current_commit_id` */
  function CurrentCommit(heads: Heads, head: Head): Option<CommitId> {
    if head.name in heads && heads[head.name].isBranch == head.Branch? then Some(heads[head.name].commit) else None
  }

  /** Commits name registered directories. */
  ghost predicate CommitsFit(commits: set<CommitId>, entities: set<EntityKey>) {
    forall c :: c in commits ==> c.HashOf? && c.commit.entity in entities && KindOf(c.commit.entity).Dir?
  }

  ghost predicate HeadsFit(heads: Heads, commits: set<CommitId>) {
    forall h :: h in heads ==> heads[h].commit in commits
  }

  /** The heads of the table and the heads in the configuration are the same. */
  ghost predicate SameHeads(listed: map<Head, CommitId>, heads: Heads) {
    && (forall h :: h in listed ==> h.name in heads && heads[h.name] == HeadRow(h.Branch?, listed[h]))
    && (forall n :: n in heads ==> (if heads[n].isBranch then Branch(n) else Tag(n)) in listed)
  }

  /** The configuration lists exactly the heads; without one there are none. */
  ghost predicate ConfigFits(config: Option<Config>, heads: Heads) {
    if config.Some? then SameHeads(config.value.heads, heads) else heads == map[]
  }

  /** The branch head's commit is one of exactly the root inode's entity. */
  predicate AtHead(heads: Heads, branch: string, keys: Keys) {
    && RootInode in keys && branch in heads && heads[branch].isBranch
    && heads[branch].commit.HashOf? && heads[branch].commit.commit.entity == keys[RootInode]
  }

  /** What `update_commit` makes of the old head: the next commit, or none if the root did not change. */
  function NextCommit(prev: Commit, root: EntityKey, now: int): Option<Commit> {
    if prev.entity == root then None else Some(Commit(root, HashOf(prev), prev.count + 1, now))
  }

  function WithHead(heads: Heads, name: string, c: CommitId): Heads
    requires name in heads
  {
    heads[name := heads[name].(commit := c)]
  }

  // ---------- upserting and listing ----------

  /** All listed heads but `rest` have been upserted over the rows of `before`. */
  ghost predicate Upserted(listed: map<Head, CommitId>, rest: set<Head>, before: Heads, now: Heads, commits: set<CommitId>) {
    && HeadsFit(now, commits)
    && (forall h :: h in listed && h !in rest ==> UpsertedHead(listed, before, now, commits, h))
    && (forall n :: n in now && !(n in before && now[n] == before[n]) ==> exists h :: h in listed && h !in rest && h.name == n)
    && (forall n :: n in before ==> n in now && now[n].isBranch == before[n].isBranch)
  }

  predicate UpsertedHead(listed: map<Head, CommitId>, before: Heads, now: Heads, commits: set<CommitId>, h: Head)
    requires h in listed
  {
    && CurrentCommit(now, h) == Some(listed[h]) && listed[h] in commits
    && (h.name in before ==> before[h.name].isBranch == h.Branch?)
  }

  lemma UpsertStart(listed: map<Head, CommitId>, heads: Heads, commits: set<CommitId>)
    requires HeadsFit(heads, commits)
    ensures Upserted(listed, listed.Keys, heads, heads, commits)
  {
  }

  lemma UpsertStep(listed: map<Head, CommitId>, rest: set<Head>, before: Heads, now: Heads, commits: set<CommitId>, h: Head)
    requires rest <= listed.Keys && Upserted(listed, rest, before, now, commits) && h in rest
    ensures (listed[h] !in commits || (h.name in now && now[h.name].isBranch != h.Branch?)) ==>
      !Acceptable(listed, before, commits)
    ensures listed[h] in commits && (h.name in now ==> now[h.name].isBranch == h.Branch?) ==>
      Upserted(listed, rest - {h}, before, now[h.name := HeadRow(h.Branch?, listed[h])], commits)
  {
    if listed[h] in commits && h.name in now && now[h.name].isBranch != h.Branch? {
      assert !Acceptable(listed, before, commits) by {
        if h.name !in before || now[h.name] != before[h.name] {
          var other :| other in listed && other !in rest && other.name == h.name;
        }
      }
    }
    if listed[h] in commits && (h.name in now ==> now[h.name].isBranch == h.Branch?) {
      var after := now[h.name := HeadRow(h.Branch?, listed[h])];
      forall g | g in listed && g !in rest - {h} ensures UpsertedHead(listed, before, after, commits, g) {
        if g != h {
          assert UpsertedHead(listed, before, now, commits, g);
          assert g.name == h.name ==> g.Branch? == h.Branch?;
        }
      }
    }
  }

  /** The heads of other names are as before. */
  ghost predicate OthersKept(listed: map<Head, CommitId>, before: Heads, now: Heads) {
    forall n :: (forall h :: h in listed ==> h.name != n) ==>
      (n in now <==> n in before) && (n in now ==> now[n] == before[n])
  }

  lemma NoHeads(config: Option<Config>, heads: Heads)
    requires ConfigFits(config, heads)
    ensures config.None? ==> heads == map[]
  {
  }

  lemma OthersStay(listed: map<Head, CommitId>, before: Heads, now: Heads, commits: set<CommitId>)
    requires Upserted(listed, {}, before, now, commits)
    ensures OthersKept(listed, before, now)
  {
  }

  lemma UpsertEnd(listed: map<Head, CommitId>, before: Heads, now: Heads, commits: set<CommitId>)
    requires Upserted(listed, {}, before, now, commits)
    ensures Acceptable(listed, before, commits) && HeadsFit(now, commits)
    ensures forall h :: h in listed ==> CurrentCommit(now, h) == Some(listed[h])
  {
    forall h | h in listed ensures UpsertedHead(listed, before, now, commits, h) {
    }
  }

  /** A head's row as the key under which configurations list it. */
  function HeadOf(heads: Heads, n: string): Head
    requires n in heads
  {
    if heads[n].isBranch then Branch(n) else Tag(n)
  }

  predicate Acceptable(listed: map<Head, CommitId>, heads: Heads, commits: set<CommitId>) {
    && (forall h :: h in listed ==> listed[h] in commits)
    && (forall h :: h in listed && h.name in heads ==> heads[h.name].isBranch == h.Branch?)
    && (forall a, b :: a in listed && b in listed && a.name == b.name ==> a == b)
  }

  lemma KeptHeads(listed: map<Head, CommitId>, before: Heads, after: Heads, commits: set<CommitId>)
    requires forall h :: h in listed ==> CurrentCommit(before, h) == Some(listed[h])
    requires after == before - (set n | n in before && HeadOf(before, n) !in listed) && HeadsFit(before, commits)
    ensures SameHeads(listed, after) && HeadsFit(after, commits)
  {
    forall h | h in listed ensures CurrentCommit(after, h) == Some(listed[h]) {
      assert CurrentCommit(before, h) == Some(listed[h]);
      assert HeadOf(before, h.name) == h;
    }
    forall h | CurrentCommit(after, h).Some? ensures h in listed {
      assert HeadOf(before, h.name) == h;
    }
  }

  lemma SameHeadsAt(listed: map<Head, CommitId>, heads: Heads, h: Head)
    requires SameHeads(listed, heads) && h in listed
    ensures CurrentCommit(heads, h) == Some(listed[h])
  {
  }

  function Listed(heads: Heads): map<Head, CommitId> {
    map h | h in (set n | n in heads :: if heads[n].isBranch then Branch(n) else Tag(n)) :: heads[h.name].commit
  }

  lemma ListedSame(heads: Heads)
    ensures SameHeads(Listed(heads), heads)
  {
    var all := set n | n in heads :: if heads[n].isBranch then Branch(n) else Tag(n);
    forall h | CurrentCommit(heads, h).Some? ensures h in Listed(heads) {
      assert h == (if heads[h.name].isBranch then Branch(h.name) else Tag(h.name));
      assert h in all;
    }
  }

  lemma MoreEntities(commits: set<CommitId>, before: set<EntityKey>, after: set<EntityKey>)
    requires CommitsFit(commits, before) && before <= after
    ensures CommitsFit(commits, after)
  {
  }

  /** The commit that `update_commit` adds, if any. */
  function NewCommits(before: Heads, name: string, keys: Keys, now: int): set<CommitId> {
    var prev := CurrentCommit(before, Branch(name));
    if RootInode in keys && prev.Some? && prev.value.HashOf? && prev.value.commit.entity != keys[RootInode]
    then {HashOf(Commit(keys[RootInode], prev.value, prev.value.commit.count + 1, now))} else {}
  }

  /** The head moves exactly when the root's key is another than that of its commit: to the next commit. */
  predicate HeadMoves(before: Heads, after: Heads, name: string, keys: Keys, now: int) {
    && RootInode in keys && name in before && before[name].isBranch && before[name].commit.HashOf?
    && after.Keys == before.Keys && (forall n :: n in before && n != name ==> after[n] == before[n])
    && var prev := before[name].commit.commit;
    after[name] == HeadRow(true, if prev.entity == keys[RootInode] then HashOf(prev)
                                 else HashOf(Commit(keys[RootInode], HashOf(prev), prev.count + 1, now)))
  }

  /** A moved head leaves a configuration of `now` that is not synced; otherwise it stays. */
  predicate ConfigMoves(before: Option<Config>, after: Option<Config>, was: Heads, heads: Heads, now: int) {
    if heads == was then after == before
    else before.Some? && after.Some? && after.value == Config(before.value.head, now, false, after.value.heads)
  }

  /** Rows come only for what the heads and the tree hold, and for `blobs`; no mode changes. What goes is
      left open, but see `Collected`. */
  ghost predicate Stocked(before: Stock, after: Stock, heads: Heads, keys: Keys, blobs: set<nat>) {
    && after.syncedCommits == before.syncedCommits && after.synced == before.synced
    && after.syncedBlobs == before.syncedBlobs && after.blobs <= before.blobs + blobs
    && (forall c :: c in after.commits && c !in before.commits ==> exists h :: h in heads && heads[h].commit == c)
    && (forall k :: k in after.entities && k !in before.entities ==> exists i :: i in keys && keys[i] == k)
  }

  // ---------- what collecting may take ----------

  /** The rows that are counted: commits, entities and blobs, each with those that are synced. */
  datatype Stock = Stock(commits: set<CommitId>, syncedCommits: set<CommitId>, entities: set<EntityKey>,
                         synced: set<EntityKey>, blobs: set<nat>, syncedBlobs: set<nat>)

  /** Local rows that nothing refers to. */
  predicate CommitUnused(s: Stock, heads: Heads, c: CommitId) {
    c !in s.syncedCommits && UnusedCommit(heads, c)
  }

  predicate EntityUnused(s: Stock, keys: Keys, k: EntityKey) {
    k !in s.synced && UnusedEntity(s.commits, s.entities, keys, k)
  }

  predicate BlobUnused(s: Stock, b: nat) {
    b !in s.syncedBlobs && UnusedBlob(s.entities, b)
  }

  predicate UnusedCommit(heads: Heads, c: CommitId) {
    forall h :: h in heads ==> heads[h].commit != c
  }

  predicate UnusedEntity(commits: set<CommitId>, entities: set<EntityKey>, keys: Keys, k: EntityKey) {
    && (forall i :: i in keys ==> keys[i] != k)
    && (forall c :: c in commits && c.HashOf? ==> c.commit.entity != k)
    && (forall e :: e in entities ==> k !in EntriesOf(e))
  }

  predicate UnusedBlob(entities: set<EntityKey>, b: nat) {
    forall e :: e in entities && e.revision.FileRevision? ==> e.revision.blob != b
  }

  /** `after` is `before` without some rows, each of them local and without references from what is left. */
  ghost predicate Collected(before: Stock, after: Stock, heads: Heads, keys: Keys) {
    && after.commits <= before.commits && after.entities <= before.entities && after.blobs <= before.blobs
    && after.syncedCommits == before.syncedCommits && after.synced == before.synced
    && after.syncedBlobs == before.syncedBlobs
    && (forall c :: c in before.commits && c !in after.commits ==> CommitUnused(after, heads, c))
    && (forall k :: k in before.entities && k !in after.entities ==> EntityUnused(after, keys, k))
    && (forall b :: b in before.blobs && b !in after.blobs ==> BlobUnused(after, b))
  }

  lemma CollectedTransitive(a: Stock, b: Stock, c: Stock, heads: Heads, keys: Keys)
    requires Collected(a, b, heads, keys) && Collected(b, c, heads, keys)
    ensures Collected(a, c, heads, keys)
  {
  }

  lemma CollectNothing(s: Stock, heads: Heads, keys: Keys)
    ensures Collected(s, s, heads, keys)
  {
  }

  lemma CollectCommit(s: Stock, heads: Heads, keys: Keys, c: CommitId)
    requires HeadsFit(heads, s.commits) && CommitsFit(s.commits, s.entities) && s.syncedCommits <= s.commits
    requires CommitUnused(s, heads, c)
    ensures Collected(s, s.(commits := s.commits - {c}), heads, keys)
    ensures HeadsFit(heads, s.commits - {c}) && CommitsFit(s.commits - {c}, s.entities)
    ensures s.syncedCommits <= s.commits - {c}
  {
  }

  lemma CollectEntity(s: Stock, heads: Heads, keys: Keys, k: EntityKey)
    requires CommitsFit(s.commits, s.entities) && EntityUnused(s, keys, k)
    requires Registered(keys, s.entities) && BlobsKnown(s.entities, s.blobs) && s.synced <= s.entities
    ensures Collected(s, s.(entities := s.entities - {k}), heads, keys)
    ensures CommitsFit(s.commits, s.entities - {k}) && Registered(keys, s.entities - {k})
    ensures BlobsKnown(s.entities - {k}, s.blobs) && s.synced <= s.entities - {k}
  {
  }

  lemma CollectBlob(s: Stock, heads: Heads, keys: Keys, b: nat)
    requires BlobsKnown(s.entities, s.blobs) && s.syncedBlobs <= s.blobs && BlobUnused(s, b)
    ensures Collected(s, s.(blobs := s.blobs - {b}), heads, keys)
    ensures BlobsKnown(s.entities, s.blobs - {b}) && s.syncedBlobs <= s.blobs - {b}
  {
  }

  /** The rows with new entities and commits. */
  function WithNew(s: Stock, entities: set<EntityKey>, commits: set<CommitId>): Stock {
    s.(entities := s.entities + entities, commits := s.commits + commits)
  }

  lemma HeadListed(listed: map<Head, CommitId>, heads: Heads, n: string)
    requires SameHeads(listed, heads) && n in heads
    ensures HeadOf(heads, n) in listed && listed[HeadOf(heads, n)] == heads[n].commit
  {
  }

  lemma ListedHead(listed: map<Head, CommitId>, heads: Heads, h: Head)
    requires SameHeads(listed, heads) && h in listed
    ensures h.name in heads && heads[h.name] == HeadRow(h.Branch?, listed[h])
  {
  }

  lemma SameRow(listed: map<Head, CommitId>, a: Heads, b: Heads, n: string)
    requires SameHeads(listed, a) && SameHeads(listed, b) && n in a
    ensures n in b && b[n] == a[n]
  {
    hide SameHeads;
    HeadListed(listed, a, n);
    ListedHead(listed, b, HeadOf(a, n));
  }

  /** A configuration that lists the heads lists no others. */
  lemma SameListing(listed: map<Head, CommitId>, a: Heads, b: Heads)
    requires SameHeads(listed, a) && SameHeads(listed, b)
    ensures a == b
  {
    hide SameHeads;
    forall n | n in a ensures n in b && b[n] == a[n] { SameRow(listed, a, b, n); }
    forall n | n in b ensures n in a { SameRow(listed, b, a, n); }
  }

  /** Where the head is decides whether a commit moves it. */
  lemma HeadsTell(heads: Heads, name: string, keys: Keys, now: int)
    ensures CurrentCommit(heads, Branch(name)).Some? <==> name in heads && heads[name].isBranch
    ensures forall after :: HeadMoves(heads, after, name, keys, now) ==>
              AtHead(after, name, keys) && (after == heads <==> AtHead(heads, name, keys))
  {
  }

  /** A configuration has been set, and a commit behind it may have moved its head. */
  lemma HeadsAfterTaking(c: Config, head: Head, taken: Option<Config>, before: Heads, after: Heads, config: Option<Config>,
                         keys: Keys, now: int)
    requires SameHeads(c.heads, before) && head in c.heads && taken == Some(c.(head := head.name))
    requires if head.Branch? then HeadMoves(before, after, head.name, keys, now) else after == before
    requires ConfigMoves(taken, config, before, after, now)
    ensures config.Some? && config.value.head == head.name
    ensures forall h :: h in c.heads && h != head ==> h.name in after && after[h.name] == HeadRow(h.Branch?, c.heads[h])
    ensures forall n :: n in after ==> (if after[n].isBranch then Branch(n) else Tag(n)) in c.heads
    ensures config == taken || (config.value.lastModified == now && !config.value.synced)
    ensures after == before ==> config == taken && SameHeads(c.heads, after)
  {
    hide SameHeads;
    forall h | h in c.heads && h != head ensures h.name in after && after[h.name] == HeadRow(h.Branch?, c.heads[h]) {
      ListedHead(c.heads, before, h);
      ListedHead(c.heads, before, head);
    }
    forall n | n in after ensures (if after[n].isBranch then Branch(n) else Tag(n)) in c.heads {
      HeadListed(c.heads, before, n);
    }
  }
}
