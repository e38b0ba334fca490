/** Inodes as a parent-linked tree: ancestors, depth, paths and lookup by name, with what inserting,
    moving and deleting do to the shape (janus-vfs/migrations/202605201500_initial.sql, vfs table). */
module Trees {
  import opened Wrappers

  datatype EntityId = EntityId(uuid: nat)

  /** `InodeId::from_entity_id`, taken as an injective hash that never hits the root's number. */
  datatype InodeId = RootInode | InodeOf(entity: EntityId)

  datatype Kind = Dir | File

  datatype Inode = Inode(kind: Kind, name: string, parent: Option<InodeId>)

  type Nodes = map<InodeId, Inode>

  /** The `n`-th ancestor; the 0th is the inode itself. */
  function Up(nodes: Nodes, i: InodeId, n: nat): Option<InodeId>
    decreases n
  {
    if n == 0 then Some(i)
    else if i in nodes && nodes[i].parent.Some? then Up(nodes, nodes[i].parent.value, n - 1)
    else None
  }

  ghost predicate ReachesRoot(nodes: Nodes, i: InodeId) {
    exists n: nat :: Up(nodes, i, n) == Some(RootInode)
  }

  predicate Parented(nodes: Nodes, i: InodeId)
    requires i in nodes
  {
    if i == RootInode then nodes[i].parent == None && nodes[i].kind == Dir
    else nodes[i].parent.Some? && nodes[i].parent.value in nodes && nodes[nodes[i].parent.value].kind == Dir
  }

  /** One tree hanging from inode 1, with directories at every inner node. */
  ghost predicate Tree(nodes: Nodes) {
    && RootInode in nodes
    && (forall i :: i in nodes ==> Parented(nodes, i))
    && (forall i :: i in nodes ==> ReachesRoot(nodes, i))
  }

  /** `i` is `a` or one of its descendants. */
  ghost predicate Below(nodes: Nodes, i: InodeId, a: InodeId) {
    exists n: nat :: Up(nodes, i, n) == Some(a)
  }

  ghost function Depth(nodes: Nodes, i: InodeId): (d: nat)
    requires ReachesRoot(nodes, i)
    ensures Up(nodes, i, d) == Some(RootInode)
  {
    var n: nat :| Up(nodes, i, n) == Some(RootInode);
    n
  }

  function ParentOf(nodes: Nodes, i: InodeId): InodeId
    requires i in nodes && nodes[i].parent.Some?
  {
    nodes[i].parent.value
  }

  // ---------- ancestors ----------

  lemma {:induction false} UpAdd(nodes: Nodes, i: InodeId, n: nat, m: nat)
    ensures Up(nodes, i, n + m) == if Up(nodes, i, n).Some? then Up(nodes, Up(nodes, i, n).value, m) else None
    decreases n
  {
    if n > 0 && i in nodes && nodes[i].parent.Some? {
      UpAdd(nodes, nodes[i].parent.value, n - 1, m);
    }
  }

  lemma DepthUnique(nodes: Nodes, i: InodeId, n: nat)
    requires Tree(nodes) && Up(nodes, i, n) == Some(RootInode)
    ensures ReachesRoot(nodes, i) && Depth(nodes, i) == n
  {
    var d := Depth(nodes, i);
    if d < n { UpAdd(nodes, i, d, n - d); }
    if n < d { UpAdd(nodes, i, n, d - n); }
  }

  lemma DepthOfParent(nodes: Nodes, i: InodeId)
    requires Tree(nodes) && i in nodes && i != RootInode
    ensures Parented(nodes, i)
    ensures Depth(nodes, i) == Depth(nodes, ParentOf(nodes, i)) + 1
  {
    var p := ParentOf(nodes, i);
    DepthUnique(nodes, i, Depth(nodes, p) + 1);
  }

  lemma BelowSelf(nodes: Nodes, i: InodeId)
    ensures Below(nodes, i, i)
  {
    assert Up(nodes, i, 0) == Some(i);
  }

  /** `vfs_inode_ancestors`, with the inode itself added, follows the parent links. */
  lemma BelowStep(nodes: Nodes, i: InodeId, a: InodeId)
    requires i in nodes && nodes[i].parent.Some?
    ensures Below(nodes, i, a) <==> i == a || Below(nodes, ParentOf(nodes, i), a)
  {
    if n: nat :| Up(nodes, i, n) == Some(a) {
      if n > 0 { assert Up(nodes, ParentOf(nodes, i), n - 1) == Some(a); }
    }
    if i == a { BelowSelf(nodes, i); }
    if n: nat :| Up(nodes, ParentOf(nodes, i), n) == Some(a) {
      assert Up(nodes, i, n + 1) == Some(a);
    }
  }

  lemma BelowRoot(nodes: Nodes, a: InodeId)
    requires Tree(nodes)
    ensures Below(nodes, RootInode, a) <==> a == RootInode
    ensures forall i :: i in nodes ==> Below(nodes, i, RootInode)
  {
    BelowSelf(nodes, RootInode);
    if n: nat :| Up(nodes, RootInode, n) == Some(a) {
      assert n == 0;
    }
    forall i | i in nodes ensures Below(nodes, i, RootInode) {
      assert ReachesRoot(nodes, i);
    }
  }

  lemma BelowTransitive(nodes: Nodes, i: InodeId, a: InodeId, b: InodeId)
    requires Below(nodes, i, a) && Below(nodes, a, b)
    ensures Below(nodes, i, b)
  {
    var n: nat :| Up(nodes, i, n) == Some(a);
    var m: nat :| Up(nodes, a, m) == Some(b);
    UpAdd(nodes, i, n, m);
  }

  lemma BelowIsDeeper(nodes: Nodes, i: InodeId, a: InodeId)
    requires Tree(nodes) && i in nodes && a in nodes && Below(nodes, i, a)
    ensures Depth(nodes, a) <= Depth(nodes, i)
    ensures Depth(nodes, a) == Depth(nodes, i) ==> a == i
  {
    var n: nat :| Up(nodes, i, n) == Some(a);
    UpAdd(nodes, i, n, Depth(nodes, a));
    DepthUnique(nodes, i, n + Depth(nodes, a));
  }

  /** No inode is its own proper ancestor. */
  lemma ParentNotBelow(nodes: Nodes, i: InodeId)
    requires Tree(nodes) && i in nodes && i != RootInode
    ensures Parented(nodes, i) && !Below(nodes, ParentOf(nodes, i), i)
  {
    DepthOfParent(nodes, i);
    if Below(nodes, ParentOf(nodes, i), i) { BelowIsDeeper(nodes, ParentOf(nodes, i), i); }
  }

  // ---------- the changes ----------

  /** A new inode under a directory. */
  lemma InsertKeepsTree(nodes: Nodes, i: InodeId, n: Inode)
    requires Tree(nodes) && i !in nodes && n.parent.Some? && n.parent.value in nodes
    requires nodes[n.parent.value].kind == Dir
    ensures Tree(nodes[i := n])
    ensures forall j, a :: j in nodes && a in nodes ==> (Below(nodes[i := n], j, a) <==> Below(nodes, j, a))
  {
    var after := nodes[i := n];
    forall j, k: nat | j in nodes && Up(nodes, j, k).Some? ensures Up(after, j, k) == Up(nodes, j, k) {
      InsertKeepsUp(nodes, i, n, j, k);
    }
    forall j | j in after ensures ReachesRoot(after, j) {
      if j == i {
        var p := n.parent.value;
        assert Up(after, p, Depth(nodes, p)) == Some(RootInode);
        assert Up(after, i, Depth(nodes, p) + 1) == Some(RootInode);
      } else {
        assert Up(after, j, Depth(nodes, j)) == Some(RootInode);
      }
    }
    forall j, a | j in nodes && a in nodes ensures Below(after, j, a) <==> Below(nodes, j, a) {
      if k: nat :| Up(nodes, j, k) == Some(a) { assert Up(after, j, k) == Some(a); }
      if k: nat :| Up(after, j, k) == Some(a) { InsertAddsNoUp(nodes, i, n, j, k); }
    }
  }

  lemma {:induction false} InsertKeepsUp(nodes: Nodes, i: InodeId, n: Inode, j: InodeId, k: nat)
    requires Tree(nodes) && i !in nodes && j in nodes && Up(nodes, j, k).Some?
    ensures Up(nodes[i := n], j, k) == Up(nodes, j, k)
    decreases k
  {
    if k > 0 {
      assert Parented(nodes, j);
      InsertKeepsUp(nodes, i, n, nodes[j].parent.value, k - 1);
    }
  }

  lemma {:induction false} InsertAddsNoUp(nodes: Nodes, i: InodeId, n: Inode, j: InodeId, k: nat)
    requires Tree(nodes) && i !in nodes && j in nodes && Up(nodes[i := n], j, k).Some?
    ensures Up(nodes[i := n], j, k) == Up(nodes, j, k)
    decreases k
  {
    if k > 0 {
      assert Parented(nodes, j);
      InsertAddsNoUp(nodes, i, n, nodes[j].parent.value, k - 1);
    }
  }

  predicate SameLinks(before: Nodes, after: Nodes) {
    && before.Keys == after.Keys
    && forall i :: i in before ==> after[i].parent == before[i].parent && after[i].kind == before[i].kind
  }

  lemma {:induction false} SameLinksUp(before: Nodes, after: Nodes, i: InodeId, n: nat)
    requires SameLinks(before, after)
    ensures Up(after, i, n) == Up(before, i, n)
    decreases n
  {
    if n > 0 && i in before && before[i].parent.Some? {
      SameLinksUp(before, after, before[i].parent.value, n - 1);
    }
  }

  /** Names do not matter for the shape. */
  lemma SameLinksTree(before: Nodes, after: Nodes)
    requires SameLinks(before, after) && Tree(before)
    ensures Tree(after)
    ensures forall i, a :: Below(after, i, a) <==> Below(before, i, a)
  {
    forall i, n: nat ensures Up(after, i, n) == Up(before, i, n) {
      SameLinksUp(before, after, i, n);
    }
    forall i | i in after ensures Parented(after, i) && ReachesRoot(after, i) {
      assert Parented(before, i);
      assert Up(after, i, Depth(before, i)) == Some(RootInode);
    }
    forall i, a ensures Below(after, i, a) <==> Below(before, i, a) {
      if n: nat :| Up(before, i, n) == Some(a) { assert Up(after, i, n) == Some(a); }
      if n: nat :| Up(after, i, n) == Some(a) { assert Up(before, i, n) == Some(a); }
    }
  }

  function Moved(nodes: Nodes, i: InodeId, p: InodeId): Nodes
    requires i in nodes
  {
    nodes[i := nodes[i].(parent := Some(p))]
  }

  /** Away from the moved subtree the way to the root does not change. */
  lemma {:induction false} MoveKeepsUp(nodes: Nodes, i: InodeId, p: InodeId, j: InodeId, k: nat)
    requires Tree(nodes) && i in nodes && j in nodes && !Below(nodes, j, i)
    requires Up(nodes, j, k).Some?
    ensures Up(Moved(nodes, i, p), j, k) == Up(nodes, j, k)
    decreases k
  {
    BelowSelf(nodes, j);
    if k > 0 {
      assert Parented(nodes, j);
      BelowStep(nodes, j, i);
      MoveKeepsUp(nodes, i, p, nodes[j].parent.value, k - 1);
    }
  }

  lemma {:induction false} MoveReachesRoot(nodes: Nodes, i: InodeId, p: InodeId, j: InodeId)
    requires Tree(nodes) && i in nodes && i != RootInode && p in nodes && !Below(nodes, p, i) && j in nodes
    ensures ReachesRoot(Moved(nodes, i, p), j)
    decreases Depth(nodes, j)
  {
    var after := Moved(nodes, i, p);
    if j == i {
      MoveKeepsUp(nodes, i, p, p, Depth(nodes, p));
      assert Up(after, i, Depth(nodes, p) + 1) == Some(RootInode);
    } else if j == RootInode {
      assert Up(after, j, 0) == Some(RootInode);
    } else {
      DepthOfParent(nodes, j);
      var q := ParentOf(nodes, j);
      MoveReachesRoot(nodes, i, p, q);
      assert Up(after, j, Depth(after, q) + 1) == Some(RootInode);
    }
  }

  /** An accepted move keeps one tree: everything stays reachable from the root. */
  lemma MoveKeepsTree(nodes: Nodes, i: InodeId, p: InodeId)
    requires Tree(nodes) && i in nodes && i != RootInode
    requires p in nodes && nodes[p].kind == Dir && !Below(nodes, p, i)
    ensures Tree(Moved(nodes, i, p))
  {
    forall j | j in nodes ensures Parented(Moved(nodes, i, p), j) && ReachesRoot(Moved(nodes, i, p), j) {
      assert Parented(nodes, j);
      MoveReachesRoot(nodes, i, p, j);
    }
  }

  ghost function Subtree(nodes: Nodes, i: InodeId): set<InodeId> {
    set j | j in nodes && Below(nodes, j, i)
  }

  predicate ChildOf(nodes: Nodes, p: InodeId, c: InodeId) {
    c in nodes && nodes[c].parent == Some(p)
  }

  function Children(nodes: Nodes, p: InodeId): set<InodeId> {
    set c | c in nodes && ChildOf(nodes, p, c)
  }

  /** A subtree is its top and its children's subtrees. */
  lemma SubtreeStep(nodes: Nodes, i: InodeId)
    requires Tree(nodes) && i in nodes
    ensures i in Subtree(nodes, i)
    ensures forall c :: c in Children(nodes, i) ==> Subtree(nodes, c) < Subtree(nodes, i) && i !in Subtree(nodes, c)
    ensures forall j :: j in Subtree(nodes, i) && j != i ==> exists c :: c in Children(nodes, i) && j in Subtree(nodes, c)
  {
    BelowSelf(nodes, i);
    forall c | c in Children(nodes, i) ensures Subtree(nodes, c) < Subtree(nodes, i) && i !in Subtree(nodes, c) {
      ChildSubtreeSmaller(nodes, i, c);
    }
    forall j | j in Subtree(nodes, i) && j != i ensures exists c :: c in Children(nodes, i) && j in Subtree(nodes, c) {
      var n: nat :| Up(nodes, j, n) == Some(i);
      UpAdd(nodes, j, n - 1, 1);
      var c := Up(nodes, j, n - 1).value;
      assert Up(nodes, c, 1) == Some(i) && Up(nodes, ParentOf(nodes, c), 0) == Some(ParentOf(nodes, c));
      assert c in Children(nodes, i) && j in Subtree(nodes, c);
    }
  }

  /** A walk over the children of `i` has gone through the subtrees of all but `rest`. */
  ghost predicate Gathered(nodes: Nodes, i: InodeId, rest: set<InodeId>, covered: set<InodeId>) {
    && rest <= Children(nodes, i) && i in covered && covered <= Subtree(nodes, i)
    && forall c :: c in Children(nodes, i) && c !in rest ==> Subtree(nodes, c) <= covered
  }

  lemma GatherStart(nodes: Nodes, i: InodeId)
    requires Tree(nodes) && i in nodes
    ensures Gathered(nodes, i, Children(nodes, i), {i})
  {
    BelowSelf(nodes, i);
  }

  lemma GatherStep(nodes: Nodes, i: InodeId, rest: set<InodeId>, covered: set<InodeId>, c: InodeId)
    requires Tree(nodes) && i in nodes && Gathered(nodes, i, rest, covered) && c in rest
    ensures Gathered(nodes, i, rest - {c}, covered + Subtree(nodes, c))
    ensures c in nodes && c != RootInode && Parented(nodes, c) && ParentOf(nodes, c) == i
    ensures Subtree(nodes, c) < Subtree(nodes, i)
  {
    SubtreeStep(nodes, i);
    assert Parented(nodes, RootInode);
    hide Tree, Subtree;
  }

  lemma GatherAll(nodes: Nodes, i: InodeId, covered: set<InodeId>)
    requires Tree(nodes) && i in nodes && Gathered(nodes, i, {}, covered)
    ensures covered == Subtree(nodes, i)
  {
    SubtreeStep(nodes, i);
    hide Tree, Subtree;
  }

  /** The subtrees of `rest` lie outside `covered`. */
  ghost predicate Ahead(nodes: Nodes, rest: set<InodeId>, covered: set<InodeId>) {
    forall c :: c in rest ==> Subtree(nodes, c) !! covered
  }

  lemma AheadStart(nodes: Nodes, i: InodeId)
    requires Tree(nodes) && i in nodes
    ensures Ahead(nodes, Children(nodes, i), {i})
  {
    SubtreeStep(nodes, i);
    hide Tree, Subtree;
  }

  lemma AheadStep(nodes: Nodes, i: InodeId, rest: set<InodeId>, covered: set<InodeId>, c: InodeId)
    requires Tree(nodes) && Ahead(nodes, rest, covered) && c in rest && rest <= Children(nodes, i)
    ensures Ahead(nodes, rest - {c}, covered + Subtree(nodes, c))
  {
    forall d | d in rest - {c} ensures Subtree(nodes, d) !! Subtree(nodes, c) {
      SiblingsDisjoint(nodes, i, d, c);
    }
    hide Tree, Subtree;
  }

  lemma ChildSubtreeSmaller(nodes: Nodes, p: InodeId, c: InodeId)
    requires Tree(nodes) && p in nodes && ChildOf(nodes, p, c)
    ensures Subtree(nodes, c) < Subtree(nodes, p) && p !in Subtree(nodes, c)
  {
    assert c != RootInode by { assert Parented(nodes, RootInode); }
    BelowSelf(nodes, p);
    BelowStep(nodes, c, p);
    ParentNotBelow(nodes, c);
    forall j | j in Subtree(nodes, c) ensures j in Subtree(nodes, p) {
      BelowTransitive(nodes, j, c, p);
    }
    assert p in Subtree(nodes, p) && p !in Subtree(nodes, c);
  }

  /** Subtrees of siblings are disjoint. */
  lemma SiblingsDisjoint(nodes: Nodes, p: InodeId, c: InodeId, d: InodeId)
    requires Tree(nodes) && ChildOf(nodes, p, c) && ChildOf(nodes, p, d) && c != d
    ensures Subtree(nodes, c) !! Subtree(nodes, d)
  {
    assert c != RootInode && d != RootInode by { assert Parented(nodes, RootInode); }
    DepthOfParent(nodes, c);
    DepthOfParent(nodes, d);
    forall j | j in Subtree(nodes, c) ensures j !in Subtree(nodes, d) {
      if Below(nodes, j, d) {
        var n: nat :| Up(nodes, j, n) == Some(c);
        var m: nat :| Up(nodes, j, m) == Some(d);
        UpAdd(nodes, j, n, Depth(nodes, c));
        UpAdd(nodes, j, m, Depth(nodes, d));
        DepthUnique(nodes, j, n + Depth(nodes, c));
        DepthUnique(nodes, j, m + Depth(nodes, d));
      }
    }
  }

  lemma {:induction false} PruneKeepsUp(nodes: Nodes, i: InodeId, j: InodeId, k: nat)
    requires Tree(nodes) && j in nodes && !Below(nodes, j, i) && Up(nodes, j, k).Some?
    ensures Up(nodes - Subtree(nodes, i), j, k) == Up(nodes, j, k)
    decreases k
  {
    if k > 0 {
      assert Parented(nodes, j);
      BelowStep(nodes, j, i);
      PruneKeepsUp(nodes, i, nodes[j].parent.value, k - 1);
    }
  }

  /** Deleting a subtree other than the whole leaves a tree. */
  lemma PruneKeepsTree(nodes: Nodes, i: InodeId)
    requires Tree(nodes) && i != RootInode
    ensures Tree(nodes - Subtree(nodes, i))
  {
    var after := nodes - Subtree(nodes, i);
    BelowRoot(nodes, i);
    forall j | j in after ensures Parented(after, j) && ReachesRoot(after, j) {
      assert Parented(nodes, j);
      PruneKeepsUp(nodes, i, j, Depth(nodes, j));
      assert Up(after, j, Depth(nodes, j)) == Some(RootInode);
      if j != RootInode { BelowStep(nodes, j, i); }
    }
  }

  // ---------- names and paths ----------

  /** The names on the way from the root, outermost first. */
  ghost function Names(nodes: Nodes, i: InodeId): seq<string>
    requires Tree(nodes) && i in nodes
    decreases Depth(nodes, i)
  {
    if i == RootInode then []
    else DepthOfParent(nodes, i); Names(nodes, ParentOf(nodes, i)) + [nodes[i].name]
  }

  /** The path column as the trigger computes it from the parent's. */
  function PathFrom(isRoot: bool, underRoot: bool, parentPath: string, name: string): string {
    if isRoot then "/" else if underRoot then "/" + name else parentPath + "/" + name
  }

  ghost function Path(nodes: Nodes, i: InodeId): string
    requires Tree(nodes) && i in nodes
    decreases Depth(nodes, i)
  {
    if i == RootInode then "/"
    else
      DepthOfParent(nodes, i);
      PathFrom(false, ParentOf(nodes, i) == RootInode, Path(nodes, ParentOf(nodes, i)), nodes[i].name)
  }

  /** Names behind slashes; no names are the root's "/". */
  function Join(names: seq<string>): string {
    if names == [] then "/"
    else if |names| == 1 then "/" + names[0]
    else Join(names[..|names| - 1]) + "/" + names[|names| - 1]
  }

  /** A path is the slash-join of the names from the root. */
  lemma {:induction false} PathIsJoin(nodes: Nodes, i: InodeId)
    requires Tree(nodes) && i in nodes
    ensures Path(nodes, i) == Join(Names(nodes, i))
    decreases Depth(nodes, i)
  {
    if i != RootInode {
      DepthOfParent(nodes, i);
      var p := ParentOf(nodes, i);
      PathIsJoin(nodes, p);
      var names := Names(nodes, p);
      assert (names + [nodes[i].name])[..|names|] == names;
      if p != RootInode { DepthOfParent(nodes, p); }
    }
  }

  /** The check of the name column: 1 to 255 characters, no blank at either end, and no slash. */
  predicate ValidName(name: string) {
    0 < |name| <= 255 && name[0] != ' ' && name[|name| - 1] != ' ' && '/' !in name
  }

  ghost predicate ValidNames(names: seq<string>) {
    forall k :: 0 <= k < |names| ==> ValidName(names[k])
  }

  /** The last slash splits a path in only one way. */
  lemma LastSlash(a: string, b: string, x: string, y: string)
    requires '/' !in x && '/' !in y && a + "/" + x == b + "/" + y
    ensures a == b && x == y
  {
    var s := a + "/" + x;
    assert s[|a|] == '/' && s[|b|] == '/';
    assert forall k :: |a| < k < |s| ==> s[k] == x[k - |a| - 1];
    assert forall k :: |b| < k < |s| ==> s[k] == y[k - |b| - 1];
    assert |a| == |b|;
    assert a == s[..|a|] && b == s[..|b|] && x == s[|a| + 1..] && y == s[|b| + 1..];
  }

  /** Joining is injective on valid names. */
  lemma {:induction false} JoinInjective(a: seq<string>, b: seq<string>)
    requires ValidNames(a) && ValidNames(b) && Join(a) == Join(b)
    ensures a == b
    decreases |a|
  {
    if a == [] || b == [] {
      JoinEndsInName(a);
      JoinEndsInName(b);
    } else {
      var x, y := a[|a| - 1], b[|b| - 1];
      var p := if |a| == 1 then "" else Join(a[..|a| - 1]);
      var q := if |b| == 1 then "" else Join(b[..|b| - 1]);
      assert "" + "/" + x == "/" + x && "" + "/" + y == "/" + y;
      assert ValidName(x) && ValidName(y);
      LastSlash(p, q, x, y);
      if |a| > 1 { JoinEndsInName(a[..|a| - 1]); }
      if |b| > 1 { JoinEndsInName(b[..|b| - 1]); }
      if |a| > 1 && |b| > 1 {
        JoinInjective(a[..|a| - 1], b[..|b| - 1]);
      }
      assert a == a[..|a| - 1] + [x] && b == b[..|b| - 1] + [y];
    }
  }

  lemma JoinEndsInName(a: seq<string>)
    requires ValidNames(a)
    ensures |Join(a)| > 0 && (Join(a)[|Join(a)| - 1] == '/' <==> a == [])
  {
    if a != [] { assert ValidName(a[|a| - 1]); }
  }

  predicate SameSlot(nodes: Nodes, i: InodeId, j: InodeId)
    requires i in nodes && j in nodes
  {
    i != RootInode && j != RootInode && nodes[i].parent == nodes[j].parent && nodes[i].name == nodes[j].name
  }

  /** `UNIQUE (parent, name)`, and the name checks. */
  ghost predicate Named(nodes: Nodes) {
    && (forall i :: i in nodes ==> ValidName(nodes[i].name))
    && (forall i, j :: i in nodes && j in nodes && SameSlot(nodes, i, j) ==> i == j)
  }

  lemma {:induction false} NamesValid(nodes: Nodes, i: InodeId)
    requires Tree(nodes) && Named(nodes) && i in nodes
    ensures ValidNames(Names(nodes, i))
    decreases Depth(nodes, i)
  {
    if i != RootInode {
      DepthOfParent(nodes, i);
      NamesValid(nodes, ParentOf(nodes, i));
    }
  }

  lemma {:induction false} NamesInjective(nodes: Nodes, i: InodeId, j: InodeId)
    requires Tree(nodes) && Named(nodes) && i in nodes && j in nodes
    requires Names(nodes, i) == Names(nodes, j)
    ensures i == j
    decreases Depth(nodes, i)
  {
    if i != RootInode && j != RootInode {
      DepthOfParent(nodes, i);
      DepthOfParent(nodes, j);
      var a, b := Names(nodes, i), Names(nodes, j);
      assert a[..|a| - 1] == Names(nodes, ParentOf(nodes, i)) && b[..|b| - 1] == Names(nodes, ParentOf(nodes, j));
      assert a[|a| - 1] == nodes[i].name && b[|b| - 1] == nodes[j].name;
      NamesInjective(nodes, ParentOf(nodes, i), ParentOf(nodes, j));
    }
  }

  /** Distinct inodes have distinct paths: the unique path index never rejects a correct path. */
  lemma PathInjective(nodes: Nodes, i: InodeId, j: InodeId)
    requires Tree(nodes) && Named(nodes) && i in nodes && j in nodes
    ensures Path(nodes, i) == Path(nodes, j) ==> i == j
  {
    PathIsJoin(nodes, i);
    PathIsJoin(nodes, j);
    NamesValid(nodes, i);
    NamesValid(nodes, j);
    if Path(nodes, i) == Path(nodes, j) {
      JoinInjective(Names(nodes, i), Names(nodes, j));
      NamesInjective(nodes, i, j);
    }
  }

  // ---------- lookup ----------

  predicate ChildNamed(nodes: Nodes, p: InodeId, name: string, i: InodeId) {
    i in nodes && nodes[i].parent == Some(p) && nodes[i].name == name
  }

  /** Walking the tree name by name. */
  ghost function Walk(nodes: Nodes, names: seq<string>): Option<InodeId>
    decreases |names|
  {
    if names == [] then Some(RootInode)
    else
      var up, last := Walk(nodes, names[..|names| - 1]), names[|names| - 1];
      if up.Some? && exists i :: ChildNamed(nodes, up.value, last, i) then
        var i :| ChildNamed(nodes, up.value, last, i);
        Some(i)
      else None
  }

  lemma RootIsNoChild(nodes: Nodes, p: InodeId, name: string)
    requires Tree(nodes)
    ensures !ChildNamed(nodes, p, name, RootInode)
  {
    assert Parented(nodes, RootInode);
  }

  lemma WalkUnfolds(nodes: Nodes, names: seq<string>, i: InodeId)
    requires Tree(nodes) && Named(nodes) && names != []
    ensures var up, last := Walk(nodes, names[..|names| - 1]), names[|names| - 1];
            Walk(nodes, names) == Some(i) <==> up.Some? && ChildNamed(nodes, up.value, last, i)
  {
    var up, last := Walk(nodes, names[..|names| - 1]), names[|names| - 1];
    if up.Some? {
      forall a, b | ChildNamed(nodes, up.value, last, a) && ChildNamed(nodes, up.value, last, b) ensures a == b {
        RootIsNoChild(nodes, up.value, last);
        assert SameSlot(nodes, a, b);
      }
    }
  }

  lemma NamesSplit(nodes: Nodes, i: InodeId, names: seq<string>)
    requires Tree(nodes) && i in nodes && i != RootInode && names != []
    ensures Parented(nodes, i)
    ensures Names(nodes, i) == names
            <==> Names(nodes, ParentOf(nodes, i)) == names[..|names| - 1] && nodes[i].name == names[|names| - 1]
  {
    DepthOfParent(nodes, i);
    var up := Names(nodes, ParentOf(nodes, i));
    assert (up + [nodes[i].name])[..|up|] == up;
    assert names == names[..|names| - 1] + [names[|names| - 1]];
  }

  /** A walk arrives at an inode exactly along that inode's names. */
  lemma {:induction false} WalkArrives(nodes: Nodes, names: seq<string>, i: InodeId)
    requires Tree(nodes) && Named(nodes) && i in nodes
    ensures Walk(nodes, names) == Some(i) <==> Names(nodes, i) == names
    decreases |names|
  {
    hide Tree, Named, Names;
    NamesOfRootOnly(nodes, i);
    if names != [] {
      hide Walk;
      var init, last := names[..|names| - 1], names[|names| - 1];
      WalkUnfolds(nodes, names, i);
      if i == RootInode {
        forall p ensures !ChildNamed(nodes, p, last, i) { RootIsNoChild(nodes, p, last); }
      } else {
        NamesSplit(nodes, i, names);
        WalkArrives(nodes, init, ParentOf(nodes, i));
      }
    }
  }

  lemma NamesOfRootOnly(nodes: Nodes, i: InodeId)
    requires Tree(nodes) && i in nodes
    ensures Names(nodes, i) == [] <==> i == RootInode
  {
  }

  lemma {:induction false} WalkStaysInside(nodes: Nodes, names: seq<string>)
    requires Tree(nodes)
    ensures Walk(nodes, names).Some? ==> Walk(nodes, names).value in nodes
  {
  }
}
