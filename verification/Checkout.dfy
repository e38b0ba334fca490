/** Rebuilding the inodes of a commit breadth-first from its root entity
    (janus-vfs/src/vfs/config.rs, set_config). */
module Checkout {
  import opened Wrappers
  import opened Trees
  import opened Marks
  import opened Entities
  import opened Merkle
  import opened TableSteps
  import opened Statements
  import opened VfsTable
  import Distinct

  // ---------- the work that is left ----------

  /** How many entities an entity unfolds into; a revision is a hash over what it contains, so this ends. */
  ghost function Size(k: EntityKey): nat
    decreases k
  {
    match k.revision
    case DirRevision(_, entries) => 1 + SizeAll(entries)
    case FileRevision(_, _, _) => 1
  }

  ghost function SizeAll(s: seq<EntityKey>): nat
    decreases s
  {
    if s == [] then 0 else Size(s[0]) + SizeAll(s[1..])
  }

  type Work = seq<(InodeId, EntityKey)>

  ghost function WorkSize(q: Work): nat {
    if q == [] then 0 else Size(q[0].1) + WorkSize(q[1..])
  }

  lemma {:induction false} WorkSizeAppend(q: Work, w: (InodeId, EntityKey))
    ensures WorkSize(q + [w]) == WorkSize(q) + Size(w.1)
    decreases |q|
  {
    if q == [] {
      assert q + [w] == [w];
    } else {
      assert (q + [w])[0] == q[0] && (q + [w])[1..] == q[1..] + [w];
      WorkSizeAppend(q[1..], w);
    }
  }

  lemma SizeOfEntries(k: EntityKey)
    ensures Size(k) == 1 + SizeAll(EntriesOf(k))
  {
  }

  lemma SizeOfNone()
    ensures SizeAll([]) == 0
  {
  }

  lemma SizeStep(s: seq<EntityKey>, c: nat)
    requires c < |s|
    ensures SizeAll(s[c..]) == Size(s[c]) + SizeAll(s[c + 1..])
  {
    assert s[c..][0] == s[c] && s[c..][1..] == s[c + 1..];
  }

  lemma ListsMore(s: seq<EntityKey>, c: nat, keys: set<EntityKey>)
    requires c < |s| && Lists(s[..c], keys) && s[c] !in keys
    ensures Lists(s[..c + 1], keys + {s[c]})
  {
    assert s[..c + 1] == s[..c] + [s[c]];
  }

  // ---------- the state of the rebuild ----------

  ghost predicate Queued(q: Work, p: InodeId) {
    exists a :: 0 <= a < |q| && q[a].0 == p
  }

  ghost predicate WorkFits(keys: Keys, q: Work) {
    && (forall a :: 0 <= a < |q| ==> q[a].0 in keys && keys[q[a].0] == q[a].1)
    && (forall a, b :: 0 <= a < b < |q| ==> q[a].0 != q[b].0)
  }

  /** Directories that were taken from the queue have their children; those still in it have none. */
  ghost predicate Built(nodes: Nodes, keys: Keys, q: Work, p: InodeId)
    requires p in keys
  {
    if Queued(q, p) then ChildKeys(nodes, keys, p) == {} else Lists(EntriesOf(keys[p]), ChildKeys(nodes, keys, p))
  }

  ghost predicate BuiltBut(nodes: Nodes, keys: Keys, q: Work, current: Option<InodeId>)
    requires keys.Keys == nodes.Keys
  {
    WorkFits(keys, q) && forall p :: p in nodes && current != Some(p) ==> Built(nodes, keys, q, p)
  }

  /** The rebuild marks every parent. */
  ghost predicate ParentsMarked(nodes: Nodes, dirty: set<InodeId>) {
    forall i :: i in nodes && nodes[i].parent.Some? ==> ParentOf(nodes, i) in dirty
  }

  /** What was built so far is a part of `n` and `k`. */
  ghost predicate PartOf(nodes: Nodes, keys: Keys, n: Nodes, k: Keys) {
    && keys.Keys == nodes.Keys && k.Keys == n.Keys
    && forall i :: i in nodes ==> i in n && n[i] == nodes[i] && k[i] == keys[i]
  }

  ghost predicate UnfoldsFrom(root: EntityKey, n: Nodes, k: Keys) {
    Unfolded(n, k) && k[RootInode] == root
  }

  /** What an unfolded directory lists is there, as its child. */
  lemma ListedIsChild(n: Nodes, k: Keys, p: InodeId, key: EntityKey)
    requires Unfolded(n, k) && p in n && key in EntriesOf(k[p])
    ensures InodeOf(key.id) in n && n[InodeOf(key.id)] == NewInode(p, key) && k[InodeOf(key.id)] == key
    ensures n[p].kind.Dir? && ValidName(NameOf(key)) && InodeOf(key.id) != RootInode
  {
    assert n[p].kind.Dir?;
    assert key in ChildKeys(n, k, p);
    var i := KeyFoundUnder(n, k, p, key);
    hide Tree, Lists, ChildKeys, ValidName;
    assert n[i] == NewInode(p, key);
  }

  lemma NotYetInserted(nodes: Nodes, keys: Keys, p: InodeId, s: seq<EntityKey>, c: nat)
    requires c < |s| && Lists(s[..c], ChildKeys(nodes, keys, p))
    requires forall i, j :: 0 <= i < j < |s| ==> s[i] != s[j]
    ensures s[c] !in ChildKeys(nodes, keys, p)
  {
    hide ChildKeys;
    assert forall x :: x in s[..c] ==> x != s[c];
  }

  lemma NotYetThere(nodes: Nodes, keys: Keys, n: Nodes, k: Keys, p: InodeId, key: EntityKey)
    requires PartOf(nodes, keys, n, k) && key !in ChildKeys(nodes, keys, p)
    requires InodeOf(key.id) in n && n[InodeOf(key.id)] == NewInode(p, key) && k[InodeOf(key.id)] == key
    ensures InodeOf(key.id) !in nodes
  {
    assert InodeOf(key.id) in nodes ==> ChildOf(nodes, p, InodeOf(key.id));
  }

  lemma SlotIsFree(nodes: Nodes, keys: Keys, n: Nodes, k: Keys, p: InodeId, i: InodeId)
    requires Unfolded(n, k) && PartOf(nodes, keys, n, k) && i in n && i !in nodes && n[i].parent == Some(p)
    ensures !SlotTaken(nodes, Some(p), n[i].name, i)
  {
    assert Parented(n, RootInode);
    forall j | j in nodes && j != i && nodes[j].parent == Some(p) ensures nodes[j].name != n[i].name {
      assert !SameSlot(n, i, j);
    }
  }

  lemma IdIsFree(nodes: Nodes, keys: Keys, n: Nodes, k: Keys, i: InodeId)
    requires Unfolded(n, k) && PartOf(nodes, keys, n, k) && i in n && i !in nodes
    ensures !IdTaken(keys, k[i].id)
  {
    hide Tree, Named, Lists, ChildKeys;
  }

  lemma EntriesOnce(n: Nodes, k: Keys, p: InodeId)
    requires Unfolded(n, k) && p in n && n[p].kind.Dir?
    ensures forall i, j :: 0 <= i < j < |EntriesOf(k[p])| ==> EntriesOf(k[p])[i] != EntriesOf(k[p])[j]
  {
    hide Tree, Named, ChildKeys;
    assert p in k;
    Distinct.ListedOnce(EntriesOf(k[p]), ChildKeys(n, k, p));
  }

  /** While the tree that is being rebuilt exists, each next child is accepted, and is a part of it. */
  lemma NextChildFits(nodes: Nodes, keys: Keys, n: Nodes, k: Keys, p: InodeId, s: seq<EntityKey>, c: nat,
                      entities: set<EntityKey>)
    requires Unfolded(n, k) && PartOf(nodes, keys, n, k) && p in nodes && s == EntriesOf(keys[p]) && c < |s|
    requires Lists(s[..c], ChildKeys(nodes, keys, p)) && s[c] in entities
    ensures CanInsert(nodes, keys, KindOf(s[c]), p, s[c], entities)
    ensures PartOf(nodes[InodeOf(s[c].id) := NewInode(p, s[c])], keys[InodeOf(s[c].id) := s[c]], n, k)
  {
    hide Unfolded, Lists, ChildKeys, ValidName, IdTaken, SlotTaken, EntriesOf, KindOf, NameOf;
    assert s[c] in s;
    ListedIsChild(n, k, p, s[c]);
    EntriesOnce(n, k, p);
    NotYetInserted(nodes, keys, p, s, c);
    NotYetThere(nodes, keys, n, k, p, s[c]);
    SlotIsFree(nodes, keys, n, k, p, InodeOf(s[c].id));
    IdIsFree(nodes, keys, n, k, InodeOf(s[c].id));
  }

  // ---------- one more child ----------

  lemma QueuedStays(q: Work, w: (InodeId, EntityKey), p: InodeId)
    ensures Queued(q + [w], p) <==> Queued(q, p) || p == w.0
  {
    if p == w.0 { assert (q + [w])[|q|].0 == p; }
    if a :| 0 <= a < |q| && q[a].0 == p { assert (q + [w])[a].0 == p; }
  }

  lemma InsertedChildKeys(nodes: Nodes, keys: Keys, p: InodeId, key: EntityKey)
    requires keys.Keys == nodes.Keys && InodeOf(key.id) !in nodes && !IdTaken(keys, key.id)
    ensures ChildKeys(nodes[InodeOf(key.id) := NewInode(p, key)], keys[InodeOf(key.id) := key], p)
            == ChildKeys(nodes, keys, p) + {key}
    ensures key !in ChildKeys(nodes, keys, p)
  {
    var i := InodeOf(key.id);
    var after, keys' := nodes[i := NewInode(p, key)], keys[i := key];
    assert ChildOf(after, p, i) && keys'[i] == key;
    forall c | c != i ensures ChildOf(after, p, c) <==> ChildOf(nodes, p, c) {
    }
    forall x | x in ChildKeys(nodes, keys, p) ensures x in ChildKeys(after, keys', p) {
      var c :| c in nodes && c in keys && ChildOf(nodes, p, c) && keys[c] == x;
      assert ChildOf(after, p, c) && keys'[c] == x;
    }
  }

  /** Inserting the next child of `p` and queueing it keeps every other directory as built as it was. */
  lemma InsertKeepsBuilt(nodes: Nodes, keys: Keys, q: Work, p: InodeId, kind: Kind, key: EntityKey, entities: set<EntityKey>)
    requires Shaped(nodes, keys) && keys.Keys == nodes.Keys && CanInsert(nodes, keys, kind, p, key, entities)
    requires BuiltBut(nodes, keys, q, Some(p))
    ensures BuiltBut(nodes[InodeOf(key.id) := NewInode(p, key)], keys[InodeOf(key.id) := key],
                     q + [(InodeOf(key.id), key)], Some(p))
  {
    hide ChildKeys, Lists, Tree, Named, SlotTaken, ValidName, IdTaken, Queued, Shaped;
    var i := InodeOf(key.id);
    var after, keys', q' := nodes[i := NewInode(p, key)], keys[i := key], q + [(i, key)];
    forall r | r in after && r != p ensures Built(after, keys', q', r) {
      QueuedStays(q, (i, key), r);
      assert p in nodes;
      InsertChildren(nodes, keys, p, key, r);
      if r != i { assert Built(nodes, keys, q, r); }
    }
  }

  lemma InsertKeepsMarks(nodes: Nodes, dirty: set<InodeId>, p: InodeId, key: EntityKey, dirty': set<InodeId>)
    requires ParentsMarked(nodes, dirty) && dirty <= dirty' && p in dirty' && InodeOf(key.id) !in nodes
    ensures ParentsMarked(nodes[InodeOf(key.id) := NewInode(p, key)], dirty')
  {
  }

  // ---------- taking the next inode ----------

  lemma TakeNext(nodes: Nodes, keys: Keys, q: Work)
    requires keys.Keys == nodes.Keys && q != [] && BuiltBut(nodes, keys, q, None)
    ensures q[0].0 in nodes && keys[q[0].0] == q[0].1 && ChildKeys(nodes, keys, q[0].0) == {}
    ensures !Queued(q[1..], q[0].0) && BuiltBut(nodes, keys, q[1..], Some(q[0].0))
  {
    hide ChildKeys, Lists, Queued;
    var p := q[0].0;
    FirstQueued(q);
    assert Built(nodes, keys, q, p);
    assert WorkFits(keys, q[1..]) by { RestFits(keys, q); }
    forall r | r in nodes && r != p ensures Built(nodes, keys, q[1..], r) {
      assert Built(nodes, keys, q, r);
      RestQueued(q, r);
    }
    FirstNotInRest(keys, q);
  }

  lemma FirstQueued(q: Work)
    requires q != []
    ensures Queued(q, q[0].0)
  {
  }

  lemma RestFits(keys: Keys, q: Work)
    requires q != [] && WorkFits(keys, q)
    ensures WorkFits(keys, q[1..])
  {
    var rest := q[1..];
    forall a | 0 <= a < |rest| ensures rest[a] == q[a + 1] { }
  }

  lemma RestQueued(q: Work, r: InodeId)
    requires q != [] && r != q[0].0
    ensures Queued(q[1..], r) <==> Queued(q, r)
  {
    var rest := q[1..];
    if a :| 0 <= a < |q| && q[a].0 == r { assert rest[a - 1].0 == r; }
    if a :| 0 <= a < |rest| && rest[a].0 == r { assert q[a + 1].0 == r; }
  }

  lemma FirstNotInRest(keys: Keys, q: Work)
    requires q != [] && WorkFits(keys, q)
    ensures !Queued(q[1..], q[0].0)
  {
    var rest := q[1..];
    forall a | 0 <= a < |rest| ensures rest[a].0 != q[0].0 { assert rest[a] == q[a + 1]; }
  }

  lemma PutBack(nodes: Nodes, keys: Keys, q: Work, p: InodeId)
    requires keys.Keys == nodes.Keys && BuiltBut(nodes, keys, q, Some(p)) && p in nodes && !Queued(q, p)
    requires Lists(EntriesOf(keys[p]), ChildKeys(nodes, keys, p))
    ensures BuiltBut(nodes, keys, q, None)
  {
    hide ChildKeys, Lists;
  }

  lemma BuiltIsUnfolded(nodes: Nodes, keys: Keys)
    requires nodes != map[] && Shaped(nodes, keys) && keys.Keys == nodes.Keys && BuiltBut(nodes, keys, [], None)
    ensures Unfolded(nodes, keys)
  {
    hide ChildKeys, Lists, Tree, Named, Keyed;
    forall p | p in nodes ensures Lists(EntriesOf(keys[p]), ChildKeys(nodes, keys, p)) {
      assert Built(nodes, keys, [], p);
    }
  }

  /** After the rebuild a directory that is not marked has no child, and so an empty body. */
  lemma RebuiltIsTracked(nodes: Nodes, keys: Keys, dirty: set<InodeId>)
    requires Unfolded(nodes, keys) && keys.Keys == nodes.Keys && ParentsMarked(nodes, dirty)
    ensures Tracked(nodes, keys, dirty)
  {
    forall p | p in nodes && nodes[p].kind.Dir? && p !in dirty ensures Hashed(nodes, keys, p) {
      assert forall c :: !ChildOf(nodes, p, c);
      assert ChildKeys(nodes, keys, p) == {};
      assert Lists(EntriesOf(keys[p]), ChildKeys(nodes, keys, p));
    }
  }

  // ---------- the loops ----------

  /** All that the rebuild keeps; `n` and `k` are the tree it should arrive at, if there is one. */
  ghost predicate Rebuilding(t: Columns, root: EntityKey, current: Option<InodeId>, q: Work, good: bool, n: Nodes, k: Keys) {
    && t.keys.Keys == t.nodes.Keys && Shaped(t.nodes, t.keys) && RootInode in t.nodes && t.keys[RootInode] == root
    && BuiltBut(t.nodes, t.keys, q, current) && Closed(t.nodes, t.dirty) && ParentsMarked(t.nodes, t.dirty)
    && (good ==> UnfoldsFrom(root, n, k) && PartOf(t.nodes, t.keys, n, k))
  }

  lemma RebuildingChild(t: Columns, root: EntityKey, p: InodeId, q: Work, good: bool, n: Nodes, k: Keys,
                        s: seq<EntityKey>, c: nat, entities: set<EntityKey>)
    requires Rebuilding(t, root, Some(p), q, good, n, k)
    requires p in t.keys && s == EntriesOf(t.keys[p]) && c < |s|
    requires Lists(s[..c], ChildKeys(t.nodes, t.keys, p)) && s[c] in entities
    ensures good ==> CanInsert(t.nodes, t.keys, KindOf(s[c]), p, s[c], entities)
    ensures good ==> PartOf(t.nodes[InodeOf(s[c].id) := NewInode(p, s[c])], t.keys[InodeOf(s[c].id) := s[c]], n, k)
  {
    hide Unfolded, PartOf, Lists, CanInsert, Shaped, BuiltBut, ChildKeys;
    if good { NextChildFits(t.nodes, t.keys, n, k, p, s, c, entities); }
  }

  /** `create_inode` of the child `s[c]` of `p`, which then waits in the queue. */
  lemma RebuildingStep(t: Columns, root: EntityKey, p: InodeId, q: Work, good: bool, n: Nodes, k: Keys,
                       s: seq<EntityKey>, c: nat, entities: set<EntityKey>, now: Columns)
    requires Rebuilding(t, root, Some(p), q, good, n, k) && !Queued(q, p)
    requires p in t.keys && s == EntriesOf(t.keys[p]) && c < |s| && Lists(s[..c], ChildKeys(t.nodes, t.keys, p))
    requires CanInsert(t.nodes, t.keys, KindOf(s[c]), p, s[c], entities) && Shaped(now.nodes, now.keys)
    requires now.nodes == t.nodes[InodeOf(s[c].id) := NewInode(p, s[c])] && now.keys == t.keys[InodeOf(s[c].id) := s[c]]
    requires Closed(now.nodes, now.dirty) && t.dirty <= now.dirty && p in now.dirty
    ensures Rebuilding(now, root, Some(p), q + [(InodeOf(s[c].id), s[c])], good, n, k)
    ensures p in now.keys && now.keys[p] == t.keys[p] && !Queued(q + [(InodeOf(s[c].id), s[c])], p)
    ensures Lists(s[..c + 1], ChildKeys(now.nodes, now.keys, p))
  {
    hide Unfolded, PartOf, Lists, Shaped, BuiltBut, ChildKeys, Queued, Closed, ParentsMarked, IdTaken, SlotTaken;
    hide ValidName, KindOf;
    RebuildingChild(t, root, p, q, good, n, k, s, c, entities);
    InsertKeepsBuilt(t.nodes, t.keys, q, p, KindOf(s[c]), s[c], entities);
    InsertKeepsMarks(t.nodes, t.dirty, p, s[c], now.dirty);
    InsertedChildKeys(t.nodes, t.keys, p, s[c]);
    ListsMore(s, c, ChildKeys(t.nodes, t.keys, p));
    QueuedStays(q, (InodeOf(s[c].id), s[c]), p);
  }

  /** The children of one inode taken from the queue. */
  method CreateChildren(t: Table, p: InodeId, e: EntityKey, queue: Work, ghost root: EntityKey,
                        ghost good: bool, ghost n: Nodes, ghost k: Keys)
    returns (r: Result<Work, TableError>)
    requires t.Valid() && Rebuilding(t.Contents(), root, Some(p), queue, good, n, k) && !Queued(queue, p)
    requires p in t.keys && t.keys[p] == e && ChildKeys(t.nodes, t.keys, p) == {}
    modifies t`nodes, t`keys, t`paths, t`dirty, t`log
    ensures t.Valid()
    ensures r.Err? ==> !good
    ensures r.Ok? ==> Rebuilding(t.Contents(), root, None, r.value, good, n, k)
    ensures r.Ok? ==> WorkSize(r.value) == WorkSize(queue) + SizeAll(EntriesOf(e))
  {
    hide Rebuilding, Queued, ChildKeys, Lists, Shaped, Closed, CanInsert, Consistent, Size, SizeAll, WorkSize;
    hide Upward, Registered, Fit;
    hide KindOf, NewInode;
    var q, s := queue, EntriesOf(e);
    ListsNothing(t.nodes, t.keys, p, s);
    for c := 0 to |s|
      invariant t.Valid() && Rebuilding(t.Contents(), root, Some(p), q, good, n, k) && !Queued(q, p)
      invariant p in t.keys && t.keys[p] == e && Lists(s[..c], ChildKeys(t.nodes, t.keys, p))
      invariant WorkSize(q) + SizeAll(s[c..]) == WorkSize(queue) + SizeAll(s)
    {
      ghost var was := t.Contents();
      EntryExists(t.keys, t.entities, p, c);
      RebuildingChild(was, root, p, q, good, n, k, s, c, t.entities);
      RebuildingParts(was, root, Some(p), q, good, n, k);
      var made := t.InsertInode(KindOf(s[c]), p, s[c]);
      if made.Err? { return Err(made.error); }
      FitTree(t.Contents());
      RebuildingMarks(was.nodes, was.dirty, t.nodes, t.dirty, p, s[c]);
      RebuildingStep(was, root, p, q, good, n, k, s, c, t.entities, t.Contents());
      WorkSizeAppend(q, (made.value, s[c]));
      SizeStep(s, c);
      q := q + [(made.value, s[c])];
    }
    assert s[..|s|] == s && s[|s|..] == [];
    SizeOfNone();
    RebuildingDone(t.Contents(), root, p, q, good, n, k);
    return Ok(q);
  }

  lemma ListsNothing(nodes: Nodes, keys: Keys, p: InodeId, s: seq<EntityKey>)
    requires ChildKeys(nodes, keys, p) == {}
    ensures Lists(s[..0], ChildKeys(nodes, keys, p)) && s[0..] == s
  {
  }

  lemma EntryExists(keys: Keys, entities: set<EntityKey>, p: InodeId, c: nat)
    requires Registered(keys, entities) && p in keys && c < |EntriesOf(keys[p])|
    ensures EntriesOf(keys[p])[c] in entities
  {
    assert EntriesOf(keys[p])[c] in EntriesOf(keys[p]);
  }

  lemma RebuildingParts(t: Columns, root: EntityKey, current: Option<InodeId>, q: Work, good: bool, n: Nodes, k: Keys)
    requires Rebuilding(t, root, current, q, good, n, k)
    ensures Closed(t.nodes, t.dirty) && t.keys.Keys == t.nodes.Keys
  {
  }

  lemma RebuildingMarks(nodes: Nodes, dirty: set<InodeId>, after: Nodes, dirty': set<InodeId>, p: InodeId, key: EntityKey)
    requires after == nodes[InodeOf(key.id) := NewInode(p, key)] && p in after && dirty' == dirty + Upward(after, p)
    ensures dirty <= dirty' && p in dirty'
  {
    BelowSelf(after, p);
  }

  lemma RebuildingDone(t: Columns, root: EntityKey, p: InodeId, q: Work, good: bool, n: Nodes, k: Keys)
    requires Rebuilding(t, root, Some(p), q, good, n, k) && !Queued(q, p) && p in t.keys
    requires Lists(EntriesOf(t.keys[p]), ChildKeys(t.nodes, t.keys, p))
    ensures Rebuilding(t, root, None, q, good, n, k)
  {
    hide Unfolded, PartOf, Lists, Shaped, BuiltBut, ChildKeys, Queued, Closed, ParentsMarked;
    PutBack(t.nodes, t.keys, q, p);
  }

  /** The tear-down and rebuild in `set_config`. It succeeds exactly when no write handle is open and the
      root's entity unfolds into a tree with valid, distinct names and ids; then that tree is the table. */
  method Rebuild(t: Table, root: EntityKey) returns (r: Result<(), TableError>)
    requires t.Valid() && root in t.entities
    modifies t`nodes, t`keys, t`paths, t`dirty, t`log
    ensures t.Valid() && t.keys.Keys == t.nodes.Keys
    ensures r.Ok? <==> t.handles == map[] && exists n, k :: UnfoldsFrom(root, n, k)
    ensures r.Ok? ==> UnfoldsFrom(root, t.nodes, t.keys) && Consistent(t.nodes, t.keys, t.dirty)
  {
    hide Rebuilding, Unfolded, Shaped, Closed, CanInsert, Consistent, Registered, Fit, Size, SizeAll, WorkSize;
    hide ValidName, KindOf;
    hide ParentsMarked, Tracked;
    ghost var good := exists n, k :: UnfoldsFrom(root, n, k);
    ghost var n, k := map[], map[];
    if good { n, k :| UnfoldsFrom(root, n, k); }
    r := t.DeleteAll();
    if r.Err? { FitTree(t.Contents()); return; }
    if good { RootFits(root, n, k); }
    r := t.InsertRoot(root);
    FitTree(t.Contents());
    if r.Err? { return; }
    RebuildingStarts(t.Contents(), root, good, n, k);
    var queue := [(RootInode, root)];
    while queue != []
      invariant t.Valid() && Rebuilding(t.Contents(), root, None, queue, good, n, k)
      decreases WorkSize(queue)
    {
      RebuildingTakes(t.Contents(), root, queue, good, n, k);
      var (p, e) := queue[0];
      ghost var was := queue;
      var made := CreateChildren(t, p, e, queue[1..], root, good, n, k);
      if made.Err? { FitTree(t.Contents()); return Err(made.error); }
      queue := made.value;
    }
    RebuildingEnds(t.Contents(), root, good, n, k);
  }

  lemma RootFits(root: EntityKey, n: Nodes, k: Keys)
    requires UnfoldsFrom(root, n, k)
    ensures KindOf(root).Dir? && ValidName(NameOf(root))
  {
    assert Parented(n, RootInode);
  }

  lemma RebuildingStarts(t: Columns, root: EntityKey, good: bool, n: Nodes, k: Keys)
    requires t.nodes == map[RootInode := RootRow(root)] && t.keys == map[RootInode := root] && t.dirty == {}
    requires Shaped(t.nodes, t.keys) && (good ==> UnfoldsFrom(root, n, k))
    ensures Rebuilding(t, root, None, [(RootInode, root)], good, n, k)
  {
    hide Shaped;
    var q := [(RootInode, root)];
    assert q[0].0 == RootInode;
    assert Queued(q, RootInode);
    assert ChildKeys(t.nodes, t.keys, RootInode) == {};
    if good { RootAlone(t, root, n, k); }
    hide ChildKeys, Lists, Unfolded, PartOf;
  }

  lemma RootAlone(t: Columns, root: EntityKey, n: Nodes, k: Keys)
    requires t.nodes == map[RootInode := RootRow(root)] && t.keys == map[RootInode := root]
    requires UnfoldsFrom(root, n, k)
    ensures PartOf(t.nodes, t.keys, n, k)
  {
    assert Parented(n, RootInode);
  }

  lemma RebuildingTakes(t: Columns, root: EntityKey, q: Work, good: bool, n: Nodes, k: Keys)
    requires Rebuilding(t, root, None, q, good, n, k) && q != []
    ensures Rebuilding(t, root, Some(q[0].0), q[1..], good, n, k) && !Queued(q[1..], q[0].0)
    ensures q[0].0 in t.keys && t.keys[q[0].0] == q[0].1 && ChildKeys(t.nodes, t.keys, q[0].0) == {}
    ensures WorkSize(q) == 1 + SizeAll(EntriesOf(q[0].1)) + WorkSize(q[1..])
  {
    hide Unfolded, PartOf, Lists, Shaped, BuiltBut, ChildKeys, Queued, Closed, ParentsMarked, Size, SizeAll;
    TakeNext(t.nodes, t.keys, q);
    SizeOfEntries(q[0].1);
  }

  lemma RebuildingEnds(t: Columns, root: EntityKey, good: bool, n: Nodes, k: Keys)
    requires Rebuilding(t, root, None, [], good, n, k) && Fit(t)
    ensures UnfoldsFrom(root, t.nodes, t.keys) && t.keys.Keys == t.nodes.Keys && Consistent(t.nodes, t.keys, t.dirty)
  {
    hide Unfolded, PartOf, Shaped, BuiltBut, Closed, ParentsMarked, Tracked, PathsFit, Directories;
    BuiltIsUnfolded(t.nodes, t.keys);
    RebuiltIsTracked(t.nodes, t.keys, t.dirty);
  }
}
