/** The dirty marks on directories: what the recursive marking trigger adds, and that the marks stay
    closed towards the root (janus-vfs/migrations/202605201500_initial.sql, vfs_mark_* triggers). */
module Marks {
  import opened Wrappers
  import opened Trees

  /** An inode and its ancestors. */
  ghost function Upward(nodes: Nodes, i: InodeId): set<InodeId> {
    set a | a in nodes && Below(nodes, i, a)
  }

  predicate MarkedAbove(nodes: Nodes, dirty: set<InodeId>, i: InodeId) {
    i in nodes && (nodes[i].parent.Some? ==> ParentOf(nodes, i) in dirty)
  }

  /** The parent of a dirty inode is dirty. */
  ghost predicate Closed(nodes: Nodes, dirty: set<InodeId>) {
    forall i :: i in dirty ==> MarkedAbove(nodes, dirty, i)
  }

  ghost predicate ClosedAbove(nodes: Nodes, dirty: set<InodeId>, i: InodeId) {
    forall j :: j in dirty && Below(nodes, i, j) ==> MarkedAbove(nodes, dirty, j)
  }

  predicate Directories(nodes: Nodes, dirty: set<InodeId>) {
    forall i :: i in dirty ==> i in nodes && nodes[i].kind.Dir?
  }

  /** The marks after `SET is_dirty = 1` on `i`: the trigger goes on to the parent only from an inode
      that was not marked yet. */
  ghost function Marked(nodes: Nodes, dirty: set<InodeId>, i: InodeId): set<InodeId>
    requires Tree(nodes) && i in nodes
    decreases Depth(nodes, i)
  {
    if i in dirty then dirty
    else if i == RootInode then dirty + {i}
    else
      DepthOfParent(nodes, i);
      Marked(nodes, dirty + {i}, ParentOf(nodes, i))
  }

  lemma UpwardStep(nodes: Nodes, i: InodeId)
    requires Tree(nodes) && i in nodes
    ensures i == RootInode ==> Upward(nodes, i) == {i}
    ensures i != RootInode ==> Parented(nodes, i) && Upward(nodes, i) == {i} + Upward(nodes, ParentOf(nodes, i))
  {
    assert Parented(nodes, i);
    if i == RootInode {
      forall a ensures Below(nodes, i, a) <==> a == i {
        BelowRoot(nodes, a);
      }
    } else {
      forall a ensures Below(nodes, i, a) <==> a == i || Below(nodes, ParentOf(nodes, i), a) {
        BelowStep(nodes, i, a);
      }
    }
  }

  lemma {:induction false} ClosedHoldsUpward(nodes: Nodes, dirty: set<InodeId>, i: InodeId)
    requires Tree(nodes) && i in nodes && i in dirty && ClosedAbove(nodes, dirty, i)
    ensures Upward(nodes, i) <= dirty
    decreases Depth(nodes, i)
  {
    UpwardStep(nodes, i);
    if i != RootInode {
      DepthOfParent(nodes, i);
      BelowSelf(nodes, i);
      var p := ParentOf(nodes, i);
      assert MarkedAbove(nodes, dirty, i);
      forall j | j in dirty && Below(nodes, p, j) ensures MarkedAbove(nodes, dirty, j) {
        BelowStep(nodes, i, j);
      }
      ClosedHoldsUpward(nodes, dirty, p);
    }
  }

  /** The trigger marks the inode and all its ancestors, although it stops at the first marked one. */
  lemma {:induction false} MarkedIsUpward(nodes: Nodes, dirty: set<InodeId>, i: InodeId)
    requires Tree(nodes) && i in nodes && ClosedAbove(nodes, dirty, i)
    ensures Marked(nodes, dirty, i) == dirty + Upward(nodes, i)
    decreases Depth(nodes, i)
  {
    if i in dirty {
      ClosedHoldsUpward(nodes, dirty, i);
    } else {
      UpwardStep(nodes, i);
      if i != RootInode {
        DepthOfParent(nodes, i);
        var p := ParentOf(nodes, i);
        forall j | j in dirty + {i} && Below(nodes, p, j) ensures MarkedAbove(nodes, dirty + {i}, j) {
          ParentNotBelow(nodes, i);
          BelowStep(nodes, i, j);
        }
        MarkedIsUpward(nodes, dirty + {i}, p);
      }
    }
  }

  lemma {:induction false} MarkedInside(nodes: Nodes, dirty: set<InodeId>, i: InodeId)
    requires Tree(nodes) && i in nodes
    ensures dirty <= Marked(nodes, dirty, i) <= dirty + Upward(nodes, i)
    decreases Depth(nodes, i)
  {
    UpwardStep(nodes, i);
    if i !in dirty && i != RootInode {
      DepthOfParent(nodes, i);
      MarkedInside(nodes, dirty + {i}, ParentOf(nodes, i));
    }
  }

  lemma MarkedDirectories(nodes: Nodes, dirty: set<InodeId>, i: InodeId)
    requires Tree(nodes) && i in nodes && nodes[i].kind.Dir? && Directories(nodes, dirty)
    ensures Directories(nodes, Marked(nodes, dirty, i))
  {
    MarkedInside(nodes, dirty, i);
    UpwardClosed(nodes, i);
  }

  lemma ClosedEverywhere(nodes: Nodes, dirty: set<InodeId>, i: InodeId)
    requires Closed(nodes, dirty)
    ensures ClosedAbove(nodes, dirty, i)
  {
  }

  lemma UpwardClosed(nodes: Nodes, i: InodeId)
    requires Tree(nodes) && i in nodes
    ensures i in Upward(nodes, i)
    ensures Closed(nodes, Upward(nodes, i))
    ensures nodes[i].kind.Dir? ==> Directories(nodes, Upward(nodes, i))
  {
    BelowSelf(nodes, i);
    forall j | j in Upward(nodes, i) ensures MarkedAbove(nodes, Upward(nodes, i), j) {
      assert Parented(nodes, j);
      if j != RootInode {
        var p := ParentOf(nodes, j);
        BelowSelf(nodes, p);
        BelowStep(nodes, j, p);
        BelowTransitive(nodes, i, j, p);
      }
    }
    forall j | j in Upward(nodes, i) && nodes[i].kind.Dir? ensures nodes[j].kind.Dir? {
      InnerIsDir(nodes, i, j);
    }
  }

  lemma InnerIsDir(nodes: Nodes, i: InodeId, a: InodeId)
    requires Tree(nodes) && i in nodes && a in nodes && Below(nodes, i, a)
    ensures a == i || nodes[a].kind.Dir?
  {
    var n: nat :| Up(nodes, i, n) == Some(a);
    if n > 0 {
      UpAdd(nodes, i, n - 1, 1);
      var c := Up(nodes, i, n - 1).value;
      assert Up(nodes, c, 1) == Some(a);
      assert Up(nodes, ParentOf(nodes, c), 0) == Some(ParentOf(nodes, c));
      assert Parented(nodes, c);
    }
  }

  lemma UnionClosed(nodes: Nodes, a: set<InodeId>, b: set<InodeId>)
    requires Closed(nodes, a) && Closed(nodes, b)
    ensures Closed(nodes, a + b)
  {
  }

  /** Marks that were closed but for the children of `i` are closed once `i` and up are marked. */
  lemma MarkingCloses(nodes: Nodes, dirty: set<InodeId>, i: InodeId)
    requires Tree(nodes) && i in nodes
    requires forall j :: j in dirty ==> MarkedAbove(nodes, dirty + {i}, j)
    ensures Closed(nodes, dirty + Upward(nodes, i)) && ClosedAbove(nodes, dirty, i)
  {
    UpwardClosed(nodes, i);
    var up := Upward(nodes, i);
    forall j | j in dirty + up ensures MarkedAbove(nodes, dirty + up, j) {
      if j in up { assert MarkedAbove(nodes, up, j); }
    }
    forall j | j in dirty && Below(nodes, i, j) ensures MarkedAbove(nodes, dirty, j) {
      if j == RootInode {
        assert Parented(nodes, j);
      } else {
        ParentNotBelow(nodes, j);
      }
    }
  }

  /** While anything is dirty, some dirty inode has no dirty child: the loop's batch is never empty too soon. */
  lemma DeepestDirty(nodes: Nodes, dirty: set<InodeId>)
    requires Tree(nodes) && dirty != {} && Directories(nodes, dirty)
    ensures exists i :: i in dirty && NoDirtyChild(nodes, dirty, i)
  {
    var i :| i in dirty;
    DeepestFrom(nodes, dirty, dirty - {i}, i);
  }

  predicate NoDirtyChild(nodes: Nodes, dirty: set<InodeId>, i: InodeId) {
    forall c :: c in dirty && c in nodes ==> nodes[c].parent != Some(i)
  }

  lemma {:induction false} DeepestFrom(nodes: Nodes, dirty: set<InodeId>, others: set<InodeId>, i: InodeId)
    requires Tree(nodes) && Directories(nodes, dirty) && i in dirty && others <= dirty
    requires forall j :: j in dirty && j !in others ==> Depth(nodes, j) <= Depth(nodes, i)
    ensures exists j :: j in dirty && NoDirtyChild(nodes, dirty, j)
    decreases |others|
  {
    if c :| c in dirty && c in nodes && nodes[c].parent == Some(i) {
      assert c != RootInode by { assert Parented(nodes, RootInode); }
      DepthOfParent(nodes, c);
      assert c in others;
      DeepestFrom(nodes, dirty, others - {c}, c);
    }
  }
}
