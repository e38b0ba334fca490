/** The stored path column: when paths stay, and that the unique index over them never rejects a
    correct recomputation, not even while descendants still carry their old paths
    (janus-vfs/migrations/202605201500_initial.sql, vfs path triggers). */
module PathIndex {
  import opened Wrappers
  import opened Trees

  type Paths = map<InodeId, Option<string>>

  /** Every stored path is the slash-join of names from the root. */
  ghost predicate PathsRight(nodes: Nodes, paths: Paths)
    requires Tree(nodes)
  {
    paths.Keys == nodes.Keys && forall i :: i in nodes ==> paths[i] == Some(Path(nodes, i))
  }

  ghost predicate SameUpward(before: Nodes, after: Nodes, i: InodeId) {
    forall a :: a in before && Below(before, i, a) ==> a in after && SamePlace(before, after, a)
  }

  predicate SamePlace(before: Nodes, after: Nodes, a: InodeId)
    requires a in before && a in after
  {
    after[a].parent == before[a].parent && (a == RootInode || after[a].name == before[a].name)
  }

  /** A path depends on the names and parents on the way up alone, and not on the root's name. */
  lemma {:induction false} SamePath(before: Nodes, after: Nodes, i: InodeId)
    requires Tree(before) && Tree(after) && i in before && SameUpward(before, after, i)
    ensures i in after && Path(after, i) == Path(before, i) && Names(after, i) == Names(before, i)
    decreases Depth(before, i)
  {
    BelowSelf(before, i);
    if i != RootInode {
      DepthOfParent(before, i);
      DepthOfParent(after, i);
      var p := ParentOf(before, i);
      forall a | a in before && Below(before, p, a) ensures a in after && SamePlace(before, after, a) {
        BelowStep(before, i, a);
      }
      SamePath(before, after, p);
    }
  }

  /** `i` gets another name or another parent that is not below it. */
  ghost predicate Relocated(before: Nodes, after: Nodes, i: InodeId) {
    && Tree(before) && Tree(after) && i in before && i in after && i != RootInode
    && after == before[i := before[i].(name := after[i].name, parent := after[i].parent)]
    && after[i].parent.Some? && after[i].parent.value in before && !Below(before, after[i].parent.value, i)
  }

  lemma OutsideKeepsPath(before: Nodes, after: Nodes, i: InodeId, j: InodeId)
    requires Relocated(before, after, i) && j in before && !Below(before, j, i)
    ensures Path(after, j) == Path(before, j) && Names(after, j) == Names(before, j)
  {
    forall a | a in before && Below(before, j, a) ensures a in after && SamePlace(before, after, a) {
      assert a != i;
    }
    SamePath(before, after, j);
  }

  lemma {:induction false} RelocatedSubtree(before: Nodes, after: Nodes, i: InodeId, j: InodeId)
    requires Relocated(before, after, i) && j in before
    ensures Below(after, j, i) <==> Below(before, j, i)
    decreases Depth(before, j)
  {
    if j == i {
      BelowSelf(before, i);
      BelowSelf(after, i);
    } else if j == RootInode {
      BelowRoot(before, i);
      BelowRoot(after, i);
    } else {
      DepthOfParent(before, j);
      BelowStep(before, j, i);
      BelowStep(after, j, i);
      RelocatedSubtree(before, after, i, ParentOf(before, j));
    }
  }

  lemma NamesUnfold(nodes: Nodes, i: InodeId)
    requires Tree(nodes) && i in nodes && i != RootInode
    ensures Parented(nodes, i)
    ensures var s := Names(nodes, i);
            s != [] && s[..|s| - 1] == Names(nodes, ParentOf(nodes, i)) && s[|s| - 1] == nodes[i].name
  {
    DepthOfParent(nodes, i);
    var up := Names(nodes, ParentOf(nodes, i));
    assert (up + [nodes[i].name])[..|up|] == up;
  }

  /** In the relocated subtree no new position coincides with any old one. */
  lemma {:induction false} StaleNamesDiffer(before: Nodes, after: Nodes, i: InodeId, k: InodeId, j: InodeId)
    requires Relocated(before, after, i) && Named(before) && Named(after) && before[i] != after[i]
    requires k in before && j in before && Below(before, k, i) && Below(before, j, i)
    ensures Names(after, k) != Names(before, j)
    decreases Depth(before, k)
  {
    BelowRoot(before, i);
    NamesUnfold(after, k);
    NamesUnfold(before, j);
    DepthOfParent(before, k);
    var p, q := after[i].parent.value, ParentOf(before, i);
    ParentNotBelow(before, i);
    OutsideKeepsPath(before, after, i, p);
    OutsideKeepsPath(before, after, i, q);
    BelowStep(before, k, i);
    BelowStep(before, j, i);
    if Names(after, k) == Names(before, j) {
      if k == i {
        NamesInjective(before, p, ParentOf(before, j));
      } else if j == i {
        NamesInjective(after, ParentOf(after, k), q);
      } else {
        StaleNamesDiffer(before, after, i, ParentOf(before, k), ParentOf(before, j));
      }
    }
  }

  /** No inode's new path is the old path of another. */
  ghost predicate NoClash(before: Nodes, after: Nodes)
    requires Tree(before) && Tree(after)
  {
    forall k, j :: k in after && j in after && j in before && k != j ==> Path(after, k) != Path(before, j)
  }

  lemma SameNames(a: Nodes, b: Nodes, i: InodeId, j: InodeId)
    requires Tree(a) && Tree(b) && Named(a) && Named(b) && i in a && j in b
    ensures Path(a, i) == Path(b, j) ==> Names(a, i) == Names(b, j)
  {
    PathIsJoin(a, i);
    PathIsJoin(b, j);
    NamesValid(a, i);
    NamesValid(b, j);
    if Path(a, i) == Path(b, j) { JoinInjective(Names(a, i), Names(b, j)); }
  }

  /** Renaming or moving never runs into `UNIQUE (path)`, not even halfway through the recursion. */
  lemma RelocationNeverClashes(before: Nodes, after: Nodes, i: InodeId)
    requires Relocated(before, after, i) && Named(before) && Named(after) && before[i] != after[i]
    ensures NoClash(before, after)
  {
    forall k, j | k in after && j in after && j in before && k != j ensures Path(after, k) != Path(before, j) {
      if !Below(before, j, i) {
        OutsideKeepsPath(before, after, i, j);
        PathInjective(after, k, j);
      } else if !Below(before, k, i) {
        OutsideKeepsPath(before, after, i, k);
        PathInjective(before, k, j);
      } else {
        StaleNamesDiffer(before, after, i, k, j);
        SameNames(after, before, k, j);
      }
    }
  }

  /** The paths from before the statement are a correct start for the recomputation. */
  lemma RelocateReady(before: Nodes, after: Nodes, i: InodeId, was: Paths)
    requires Relocated(before, after, i) && Named(before) && Named(after) && before[i] != after[i]
    requires PathsRight(before, was)
    ensures NoClash(before, after) && Stale(before, after, was)
    ensures after[i].parent.value in was && was[after[i].parent.value] == Some(Path(after, after[i].parent.value))
  {
    RelocationNeverClashes(before, after, i);
    OutsideKeepsPath(before, after, i, after[i].parent.value);
    hide Tree, Named, Path, NoClash;
  }

  lemma RelocateDone(before: Nodes, after: Nodes, i: InodeId, was: Paths, now: Paths)
    requires Relocated(before, after, i) && PathsRight(before, was) && Covered(after, was, now, Subtree(after, i))
    ensures PathsRight(after, now)
    ensures forall j :: j in before && !Below(before, j, i) ==> now[j] == was[j]
    ensures Subtree(after, i) == Subtree(before, i)
  {
    forall j | j in before ensures Below(after, j, i) <==> Below(before, j, i) {
      RelocatedSubtree(before, after, i, j);
    }
    forall j | j in before && !Below(before, j, i) ensures Path(after, j) == Path(before, j) {
      OutsideKeepsPath(before, after, i, j);
    }
    hide Tree, Path, Below;
  }

  /** Of the rows of the table, `covered` have been recomputed and the others are as they were. */
  ghost predicate Covered(nodes: Nodes, was: Paths, paths: Paths, covered: set<InodeId>)
    requires Tree(nodes)
  {
    && paths.Keys == was.Keys == nodes.Keys
    && forall j :: j in nodes ==> paths[j] == if j in covered then Some(Path(nodes, j)) else was[j]
  }

  /** A stored path is right, waiting to be recomputed, or still the one from before the statement. */
  ghost predicate Stale(before: Nodes, nodes: Nodes, paths: Paths)
    requires Tree(before) && Tree(nodes)
  {
    && paths.Keys == nodes.Keys
    && forall j :: j in nodes ==>
      paths[j] == None || paths[j] == Some(Path(nodes, j)) || (j in before && paths[j] == Some(Path(before, j)))
  }

  /** The root's name is in no path. */
  lemma RootNameInNoPath(before: Nodes, after: Nodes)
    requires Tree(before) && Tree(after) && Named(after) && RootInode in before
    requires after == before[RootInode := after[RootInode]] && after[RootInode].parent == None
    ensures forall j :: j in before ==> Path(after, j) == Path(before, j)
    ensures NoClash(before, after)
  {
    assert Parented(before, RootInode);
    forall j | j in before ensures Path(after, j) == Path(before, j) {
      SamePath(before, after, j);
    }
    forall k, j | k in after && j in after && j in before && k != j ensures Path(after, k) != Path(before, j) {
      PathInjective(after, k, j);
    }
  }

  lemma InsertNeverClashes(before: Nodes, i: InodeId, n: Inode)
    requires Tree(before) && i !in before && Tree(before[i := n]) && Named(before[i := n])
    ensures forall j :: j in before ==> Path(before[i := n], j) == Path(before, j)
    ensures NoClash(before, before[i := n])
  {
    var after := before[i := n];
    forall j | j in before ensures Path(after, j) == Path(before, j) {
      forall a | a in before && Below(before, j, a) ensures a in after && SamePlace(before, after, a) {
        assert a != i;
      }
      SamePath(before, after, j);
    }
    forall k, j | k in after && j in after && j in before && k != j ensures Path(after, k) != Path(before, j) {
      PathInjective(after, k, j);
    }
  }

  lemma PruneKeepsPaths(before: Nodes, i: InodeId)
    requires Tree(before) && i != RootInode
    ensures Tree(before - Subtree(before, i))
    ensures forall j :: j in before - Subtree(before, i) ==> Path(before - Subtree(before, i), j) == Path(before, j)
  {
    var after := before - Subtree(before, i);
    PruneKeepsTree(before, i);
    forall j | j in after ensures Path(after, j) == Path(before, j) {
      forall a | a in before && Below(before, j, a) ensures a in after && SamePlace(before, after, a) {
        if Below(before, a, i) { BelowTransitive(before, j, a, i); }
      }
      SamePath(before, after, j);
    }
  }

  /** `SELECT inode_id FROM vfs WHERE path = ?` */
  ghost predicate FoundAt(paths: Paths, path: string, i: InodeId) {
    i in paths && paths[i] == Some(path)
  }

  /** Lookup in the path index finds an inode exactly where walking the tree name by name arrives. */
  lemma LookupIsWalk(nodes: Nodes, paths: Paths, names: seq<string>, i: InodeId)
    requires Tree(nodes) && Named(nodes) && PathsRight(nodes, paths) && ValidNames(names)
    ensures FoundAt(paths, Join(names), i) <==> Walk(nodes, names) == Some(i)
  {
    if i in nodes {
      WalkArrives(nodes, names, i);
      PathIsJoin(nodes, i);
      NamesValid(nodes, i);
      if Path(nodes, i) == Join(names) { JoinInjective(Names(nodes, i), names); }
    } else {
      WalkStaysInside(nodes, names);
    }
  }
}
