/** What the comparison of snapshots takes as the blobs below a tree are the blobs that a snapshot
    with this tree uses. */
module DiffReach {
  import opened Repository
  import opened Trees
  import opened TreeWalk
  import Diff = SnapshotDiff

  /** No directory has the null id for its tree. */
  ghost predicate NoNullTrees(f: Forest) {
    forall id, n :: id in f && n in f[id] && n.kind == DirNode ==> n.subtree != Some(NULL_ID)
  }

  /** The way down from a tree continues a way down to it. */
  lemma ReachableBelow(f: Forest, root: Id, a: Id, b: Id)
    requires Reachable(f, [a], b) && Edge(f, root, a)
    ensures Reachable(f, [root], b)
  {
    var p :| Path(f, [a], p) && p[|p| - 1] == b;
    var q := [root] + p;
    forall i | 0 <= i < |q| - 1
      ensures Edge(f, q[i], q[i + 1])
    {
      if i > 0 {
        assert q[i] == p[i - 1] && q[i + 1] == p[i];
      }
    }
    assert Path(f, [root], q);
  }

  lemma FirstStep(f: Forest, root: Id, b: Id) returns (a: Id)
    requires Reachable(f, [root], b) && b != root
    ensures Edge(f, root, a) && Reachable(f, [a], b)
  {
    var p :| Path(f, [root], p) && p[|p| - 1] == b;
    assert |p| > 1;
    a := p[1];
    var q := p[1..];
    assert Edge(f, p[0], p[1]);
    forall i | 0 <= i < |q| - 1
      ensures Edge(f, q[i], q[i + 1])
    {
      assert Edge(f, p[i + 1], p[i + 2]);
    }
    assert Path(f, [a], q);
  }

  /** Every blob that is collected below a tree is used by a snapshot with this tree. */
  lemma {:induction false} CollectedIsUsed(s: Diff.Loader, id: Id, h: Handle)
    requires NoNullTrees(s.trees) && h in Diff.Reach(s, id)
    ensures Used(s.trees, [id], h)
    decreases Diff.Level(s, id)
  {
    ReachRoot(s.trees, [id], id);
    var n :| n in s.trees[id] && h in Diff.Below(s, id, n);
    if n.kind == DirNode {
      Diff.SubtreeIsLower(s, n, id);
      var a := n.subtree.value;
      assert Edge(s.trees, id, a);
      ReachRoot(s.trees, [a], a);
      ReachableBelow(s.trees, id, a, a);
      if h != TreeHandle(a) {
        CollectedIsUsed(s, a, h);
        UsedBelow(s.trees, id, a, h);
      }
    } else {
      assert h in DataHandles(n);
      ContentIff(s.trees[id], h);
    }
  }

  lemma UsedBelow(f: Forest, root: Id, a: Id, h: Handle)
    requires Used(f, [a], h) && Edge(f, root, a)
    ensures Used(f, [root], h)
  {
    hide HoldsContent, Reachable, Edge;
    if h.tpe == TreeBlob && Reachable(f, [a], h.id) {
      ReachableBelow(f, root, a, h.id);
    } else {
      var id :| Reachable(f, [a], id) && id in f && HoldsContent(f[id], h);
      ReachableBelow(f, root, a, id);
    }
  }

  /** The trees below a tree, and the content of all files below it, are collected. */
  lemma {:induction false} TreeIsCollected(s: Diff.Loader, root: Id, id: Id)
    requires Reachable(s.trees, [root], id)
    ensures id == root || TreeHandle(id) in Diff.Reach(s, root)
    ensures Diff.Reach(s, id) <= Diff.Reach(s, root)
    decreases Diff.Level(s, root)
  {
    if id != root {
      var a := FirstStep(s.trees, root, id);
      var n :| n in s.trees[root] && n.kind == DirNode && n.subtree == Some(a);
      Diff.SubtreeIsLower(s, n, root);
      assert Diff.Below(s, root, n) <= Diff.Reach(s, root);
      TreeIsCollected(s, a, id);
    }
  }

  /** The blobs that the comparison collects for a tree, with the tree itself, are those that a
      snapshot with this tree uses. */
  lemma WholeIsUsed(s: Diff.Loader, root: Id, h: Handle)
    requires NoNullTrees(s.trees)
    ensures h in Diff.Whole(s, root) <==> Used(s.trees, [root], h)
  {
    ReachRoot(s.trees, [root], root);
    if h in Diff.Reach(s, root) {
      CollectedIsUsed(s, root, h);
    }
    if Used(s.trees, [root], h) {
      if h.tpe == TreeBlob && Reachable(s.trees, [root], h.id) {
        TreeIsCollected(s, root, h.id);
      } else {
        var id :| Reachable(s.trees, [root], id) && id in s.trees && HoldsContent(s.trees[id], h);
        TreeIsCollected(s, root, id);
        ContentIff(s.trees[id], h);
        ContentCollected(s, id, h);
      }
    }
  }

  lemma ContentCollected(s: Diff.Loader, id: Id, h: Handle)
    requires id in s.trees && h in ContentHandles(s.trees[id])
    ensures h in Diff.Reach(s, id)
  {
    var n :| n in s.trees[id] && h in DataHandles(n);
    assert h in Diff.Below(s, id, n);
  }
}
