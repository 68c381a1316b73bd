/** Comparing two snapshots without descending into the subtrees that they share (diffTree). */
module SnapshotDiff {
  import opened Repository
  import opened Trees

  /** Trees are named by their content, so no tree is below itself: every tree has a rank
      above those of its subtrees. */
  datatype Store = Store(trees: Forest, rank: map<Id, nat>)

  ghost predicate Acyclic(s: Store) {
    && (forall id :: id in s.trees ==> id in s.rank)
    && forall id, i :: id in s.trees && 0 <= i < |s.trees[id]| && s.trees[id][i].kind == DirNode ==>
      s.trees[id][i].subtree.Some? && (s.trees[id][i].subtree.value in s.trees ==>
        s.rank[s.trees[id][i].subtree.value] < s.rank[id])
  }

  type Loader = s: Store | Acyclic(s) witness Store(map[], map[])

  ghost function Level(s: Loader, id: Id): nat {
    if id in s.trees then s.rank[id] + 1 else 0
  }

  predicate IsDir(n: Node) {
    n.kind == DirNode
  }

  ghost predicate Stored(s: Loader, n: Node, id: Id) {
    id in s.trees && n in s.trees[id]
  }

  lemma SubtreeIsLower(s: Loader, n: Node, id: Id)
    requires Stored(s, n, id) && IsDir(n)
    ensures n.subtree.Some? && Level(s, n.subtree.value) < Level(s, id)
  {
    var i :| 0 <= i < |s.trees[id]| && s.trees[id][i] == n;
  }

  // ----- What there is to compare -----

  /** The blobs a node refers to directly. */
  function Refs(n: Node): set<Handle> {
    if HasSubtree(n) then {TreeHandle(n.subtree.value)} else DataHandles(n)
  }

  /** All blobs below a tree; a tree that does not load contributes none. */
  ghost function Reach(s: Loader, id: Id): set<Handle>
    decreases Level(s, id), 1
  {
    if id !in s.trees then {} else set n, h | n in s.trees[id] && h in Below(s, id, n) :: h
  }

  ghost function Below(s: Loader, id: Id, n: Node): set<Handle>
    requires Stored(s, n, id)
    decreases Level(s, id), 0
  {
    if IsDir(n) then
      SubtreeIsLower(s, n, id);
      Refs(n) + Reach(s, n.subtree.value)
    else Refs(n)
  }

  /** The nodes of a tree by name; among nodes of the same name the last one wins. */
  function ByName(nodes: seq<Node>): (m: map<string, Node>)
    ensures forall name :: name in m ==> m[name] in nodes && m[name].name == name
    ensures forall n :: n in nodes ==> n.name in m
  {
    if nodes == [] then map[]
    else ByName(nodes[..|nodes| - 1])[nodes[|nodes| - 1].name := nodes[|nodes| - 1]]
  }

  ghost predicate Twin(s: Loader, b: Id, name: string) {
    b in s.trees && name in ByName(s.trees[b])
  }

  ghost function TwinOf(s: Loader, b: Id, name: string): (n: Node)
    requires Twin(s, b, name)
    ensures Stored(s, n, b)
  {
    ByName(s.trees[b])[name]
  }

  // ----- What diffTree collects -----

  /** What it takes as belonging to one of the trees, of a node under its name. */
  ghost function OwnOf(s: Loader, a: Id, b: Id, name: string): set<Handle>
    requires Twin(s, a, name) && b in s.trees
    decreases Level(s, a), Level(s, b), 0
  {
    var n := TwinOf(s, a, name);
    if !IsDir(n) then Refs(n)
    else if !Twin(s, b, name) then Below(s, a, n)
    else
      var m := TwinOf(s, b, name);
      SubtreeIsLower(s, n, a);
      if IsDir(m) && m.subtree != n.subtree then
        SubtreeIsLower(s, m, b);
        Refs(n) + Own(s, n.subtree.value, m.subtree.value)
      else Refs(n)
  }

  ghost function Own(s: Loader, a: Id, b: Id): set<Handle>
    decreases Level(s, a), Level(s, b), 1
  {
    if a !in s.trees || b !in s.trees then {}
    else set name, h | name in ByName(s.trees[a]) && h in OwnOf(s, a, b, name) :: h
  }

  /** What it takes as common to both trees. */
  ghost function SharedOf(s: Loader, a: Id, b: Id, name: string): set<Handle>
    requires Twin(s, a, name) && b in s.trees
    decreases Level(s, a), Level(s, b), 0
  {
    if !Twin(s, b, name) then {}
    else
      var n, m := TwinOf(s, a, name), TwinOf(s, b, name);
      if !IsDir(n) || !IsDir(m) then {}
      else
        SubtreeIsLower(s, n, a);
        SubtreeIsLower(s, m, b);
        if n.subtree == m.subtree then Reach(s, n.subtree.value)
        else Shared(s, n.subtree.value, m.subtree.value)
  }

  ghost function Shared(s: Loader, a: Id, b: Id): set<Handle>
    decreases Level(s, a), Level(s, b), 1
  {
    if a !in s.trees || b !in s.trees then {}
    else set name, h | name in ByName(s.trees[a]) && h in SharedOf(s, a, b, name) :: h
  }

  // ----- What diffTree never looks at -----

  /** A node of the first tree that is not compared with anything: another node of the same
      tree has its name.  Below a directory that faces something else, nothing is looked at. */
  ghost function SkippedOf(s: Loader, a: Id, b: Id, n: Node): set<Handle>
    requires Stored(s, n, a) && b in s.trees
    decreases Level(s, a), Level(s, b), 0
  {
    if n != TwinOf(s, a, n.name) then Below(s, a, n)
    else if !IsDir(n) || !Twin(s, b, n.name) then {}
    else
      var m := TwinOf(s, b, n.name);
      SubtreeIsLower(s, n, a);
      if !IsDir(m) then Reach(s, n.subtree.value)
      else if n.subtree == m.subtree then {}
      else
        SubtreeIsLower(s, m, b);
        Skipped(s, n.subtree.value, m.subtree.value)
  }

  ghost function Skipped(s: Loader, a: Id, b: Id): set<Handle>
    decreases Level(s, a), Level(s, b), 1
  {
    if a !in s.trees then {}
    else if b !in s.trees then Reach(s, a)
    else set n, h | n in s.trees[a] && h in SkippedOf(s, a, b, n) :: h
  }

  /** Nothing but the skipped blobs is missing, for any two trees. */
  lemma {:induction false} NothingElseMissing(s: Loader, a: Id, b: Id)
    ensures Reach(s, a) == Own(s, a, b) + Shared(s, a, b) + Skipped(s, a, b)
    decreases Level(s, a), Level(s, b), 1
  {
    if a in s.trees && b in s.trees {
      forall n | n in s.trees[a]
        ensures Below(s, a, n) <= Own(s, a, b) + Shared(s, a, b) + Skipped(s, a, b)
      {
        NodeAccounted(s, a, b, n);
        AccountedIsCollected(s, a, b, n);
      }
      forall name | name in ByName(s.trees[a])
        ensures OwnOf(s, a, b, name) + SharedOf(s, a, b, name) <= Reach(s, a)
      {
        var n := TwinOf(s, a, name);
        NodeAccounted(s, a, b, n);
        BelowReached(s, a, n);
      }
      forall n | n in s.trees[a]
        ensures SkippedOf(s, a, b, n) <= Reach(s, a)
      {
        NodeAccounted(s, a, b, n);
        BelowReached(s, a, n);
      }
      ReachWithin(s, a, Own(s, a, b) + Shared(s, a, b) + Skipped(s, a, b));
      CollectedWithin(s, a, b, Reach(s, a));
    }
  }

  ghost function AccountedOf(s: Loader, a: Id, b: Id, n: Node): set<Handle>
    requires Stored(s, n, a) && b in s.trees
  {
    SkippedOf(s, a, b, n) + if n == TwinOf(s, a, n.name) then OwnOf(s, a, b, n.name) + SharedOf(s, a, b, n.name) else {}
  }

  lemma BelowReached(s: Loader, a: Id, n: Node)
    requires Stored(s, n, a)
    ensures Below(s, a, n) <= Reach(s, a)
  {
  }

  lemma AccountedIsCollected(s: Loader, a: Id, b: Id, n: Node)
    requires Stored(s, n, a) && b in s.trees
    ensures AccountedOf(s, a, b, n) <= Own(s, a, b) + Shared(s, a, b) + Skipped(s, a, b)
  {
  }

  lemma ReachWithin(s: Loader, a: Id, all: set<Handle>)
    requires a in s.trees && forall n :: n in s.trees[a] ==> Below(s, a, n) <= all
    ensures Reach(s, a) <= all
  {
    hide Below;
  }

  lemma CollectedWithin(s: Loader, a: Id, b: Id, all: set<Handle>)
    requires a in s.trees && b in s.trees
    requires forall name :: name in ByName(s.trees[a]) ==> OwnOf(s, a, b, name) + SharedOf(s, a, b, name) <= all
    requires forall n :: n in s.trees[a] ==> SkippedOf(s, a, b, n) <= all
    ensures Own(s, a, b) <= all && Shared(s, a, b) <= all && Skipped(s, a, b) <= all
  {
    hide OwnOf, SharedOf, SkippedOf;
    forall h | h in Own(s, a, b) + Shared(s, a, b)
      ensures h in all
    {
      var name :| name in ByName(s.trees[a]) && h in OwnOf(s, a, b, name) + SharedOf(s, a, b, name);
    }
    assert forall h :: h in Skipped(s, a, b) ==> h in all;
  }

  /** A directory that is compared with another one, whose tree is a different one. */
  ghost predicate Descends(s: Loader, a: Id, b: Id, n: Node)
    requires Stored(s, n, a) && b in s.trees
  {
    n == TwinOf(s, a, n.name) && IsDir(n) && Twin(s, b, n.name)
    && IsDir(TwinOf(s, b, n.name)) && n.subtree != TwinOf(s, b, n.name).subtree
  }

  lemma OtherNodeAccounted(s: Loader, a: Id, b: Id, n: Node)
    requires Stored(s, n, a) && b in s.trees && !Descends(s, a, b, n)
    ensures Below(s, a, n) == AccountedOf(s, a, b, n)
  {
    hide Reach, Own, Shared, Skipped;
  }

  lemma {:induction false} NodeAccounted(s: Loader, a: Id, b: Id, n: Node)
    requires Stored(s, n, a) && b in s.trees
    ensures Below(s, a, n) == AccountedOf(s, a, b, n)
    decreases Level(s, a), Level(s, b), 0
  {
    hide Reach, Own, Shared, Skipped, ByName;
    if Descends(s, a, b, n) {
      var m := TwinOf(s, b, n.name);
      SubtreeIsLower(s, n, a);
      SubtreeIsLower(s, m, b);
      NothingElseMissing(s, n.subtree.value, m.subtree.value);
    } else {
      OtherNodeAccounted(s, a, b, n);
    }
  }

  lemma SharedBothWays(s: Loader, a: Id, b: Id)
    requires a in s.trees && b in s.trees
    requires forall name :: Twin(s, a, name) && Twin(s, b, name) ==> SharedOf(s, a, b, name) == SharedOf(s, b, a, name)
    ensures Shared(s, a, b) <= Shared(s, b, a)
  {
    hide ByName;
    forall h | h in Shared(s, a, b)
      ensures h in Shared(s, b, a)
    {
      var name :| name in ByName(s.trees[a]) && h in SharedOf(s, a, b, name);
      assert Twin(s, b, name);
    }
  }

  lemma {:induction false} SharedIsSymmetric(s: Loader, a: Id, b: Id)
    ensures Shared(s, a, b) == Shared(s, b, a)
    decreases Level(s, a) + Level(s, b)
  {
    if a in s.trees && b in s.trees {
      forall name | Twin(s, a, name) && Twin(s, b, name)
        ensures SharedOf(s, a, b, name) == SharedOf(s, b, a, name)
      {
        var n, m := TwinOf(s, a, name), TwinOf(s, b, name);
        if IsDir(n) && IsDir(m) {
          SubtreeIsLower(s, n, a);
          SubtreeIsLower(s, m, b);
          SharedIsSymmetric(s, n.subtree.value, m.subtree.value);
        }
      }
      SharedBothWays(s, a, b);
      SharedBothWays(s, b, a);
    }
  }

  // ----- The comparison -----

  class BlobSet {
    var blobs: set<Handle>

    constructor ()
      ensures blobs == {}
    {
      blobs := {};
    }

    method Insert(h: Handle)
      modifies this
      ensures blobs == old(blobs) + {h}
    {
      blobs := blobs + {h};
    }
  }

  method AddBlobs(bs: BlobSet, n: Node)
    requires n.kind == DirNode ==> n.subtree.Some?
    modifies bs
    ensures bs.blobs == old(bs.blobs) + Refs(n)
    ensures n.kind == FileNode && n.content.Some? ==>
      bs.blobs == old(bs.blobs) + set j: nat | j < |n.content.value| :: Handle(n.content.value[j], DataBlob)
    ensures n.kind == DirNode ==> bs.blobs == old(bs.blobs) + {Handle(n.subtree.value, TreeBlob)}
    ensures (n.kind == FileNode && n.content.None?) || n.kind == SpecialNode || n.kind == UnknownNode ==>
      bs.blobs == old(bs.blobs)
  {
    match n.kind
    case FileNode =>
      var content := ContentOf(n);
      for i := 0 to |content|
        invariant bs.blobs == old(bs.blobs) + set id | id in content[..i] :: Handle(id, DataBlob)
      {
        bs.Insert(Handle(content[i], DataBlob));
        assert content[..i + 1] == content[..i] + [content[i]];
      }
      assert content[..|content|] == content;
    case DirNode => bs.Insert(TreeHandle(n.subtree.value));
    case _ =>
  }

  ghost function ReachUpTo(s: Loader, id: Id, i: nat): set<Handle>
    requires id in s.trees && i <= |s.trees[id]|
  {
    set n, h | n in s.trees[id][..i] && h in Below(s, id, n) :: h
  }

  lemma ReachSnoc(s: Loader, id: Id, i: nat)
    requires id in s.trees && i < |s.trees[id]|
    ensures ReachUpTo(s, id, i + 1) == ReachUpTo(s, id, i) + Below(s, id, s.trees[id][i])
  {
    hide Below;
    assert s.trees[id][..i + 1] == s.trees[id][..i] + [s.trees[id][i]];
  }

  /** Adds all blobs below a tree (collectDir, and printDir, which prints the nodes as well).
      A subtree that does not load is skipped. */
  method CollectDir(s: Loader, bs: BlobSet, id: Id) returns (ok: bool)
    modifies bs
    ensures ok <==> id in s.trees
    ensures bs.blobs == old(bs.blobs) + Reach(s, id)
    decreases Level(s, id)
  {
    if id !in s.trees {
      return false;
    }
    var nodes := s.trees[id];
    for i := 0 to |nodes|
      invariant bs.blobs == old(bs.blobs) + ReachUpTo(s, id, i)
    {
      var n := nodes[i];
      AddBlobs(bs, n);
      if n.kind == DirNode {
        SubtreeIsLower(s, n, id);
        var loaded := CollectDir(s, bs, n.subtree.value);
      }
      ReachSnoc(s, id, i);
    }
    assert nodes[..|nodes|] == nodes;
    return true;
  }

  /** Node `i` is the last one of its name. */
  predicate LastOfName(nodes: seq<Node>, i: nat) {
    i < |nodes| && forall j :: i < j < |nodes| ==> nodes[j].name != nodes[i].name
  }

  /** Each name leads to the last node of that name, and there are no other names. */
  ghost predicate LastWins(m: map<string, Node>, nodes: seq<Node>) {
    && m.Keys == (set n | n in nodes :: n.name)
    && forall i: nat :: LastOfName(nodes, i) ==> m[nodes[i].name] == nodes[i]
  }

  lemma ByNameSnoc(nodes: seq<Node>)
    requires nodes != []
    ensures var last := |nodes| - 1; ByName(nodes) == ByName(nodes[..last])[nodes[last].name := nodes[last]]
  {
  }

  lemma LastOfPrefix(nodes: seq<Node>, i: nat)
    requires LastOfName(nodes, i) && i < |nodes| - 1
    ensures var n := |nodes| - 1;
      LastOfName(nodes[..n], i) && nodes[..n][i] == nodes[i] && nodes[n].name != nodes[i].name
  {
  }

  lemma {:induction false} LastIsByName(nodes: seq<Node>, i: nat)
    requires LastOfName(nodes, i) && i < |nodes|
    ensures ByName(nodes)[nodes[i].name] == nodes[i]
  {
    hide ByName, LastOfName;
    ByNameSnoc(nodes);
    var n := |nodes| - 1;
    if i < n {
      LastOfPrefix(nodes, i);
      LastIsByName(nodes[..n], i);
    }
  }

  /** Indexes the nodes of a tree. */
  method NodesByName(nodes: seq<Node>) returns (m: map<string, Node>)
    ensures m == ByName(nodes)
    ensures LastWins(m, nodes)
  {
    m := map[];
    for i := 0 to |nodes|
      invariant m == ByName(nodes[..i])
    {
      m := m[nodes[i].name := nodes[i]];
      assert nodes[..i + 1][..i] == nodes[..i];
    }
    assert nodes[..|nodes|] == nodes;
    forall i: nat | LastOfName(nodes, i)
      ensures nodes[i].name in m && m[nodes[i].name] == nodes[i]
    {
      LastIsByName(nodes, i);
    }
  }

  class Comparison {
    const before: BlobSet
    const after: BlobSet
    const common: BlobSet

    constructor ()
      ensures fresh(before) && fresh(after) && fresh(common)
      ensures before != after && before != common && after != common
      ensures before.blobs == after.blobs == common.blobs == {}
    {
      before := new BlobSet();
      after := new BlobSet();
      common := new BlobSet();
    }
  }

  ghost function OwnIn(s: Loader, a: Id, b: Id, names: set<string>): set<Handle>
    requires a in s.trees && b in s.trees
  {
    set name, h | name in names && Twin(s, a, name) && h in OwnOf(s, a, b, name) :: h
  }

  ghost function SharedIn(s: Loader, a: Id, b: Id, names: set<string>): set<Handle>
    requires a in s.trees && b in s.trees
  {
    set name, h | name in names && Twin(s, a, name) && h in SharedOf(s, a, b, name) :: h
  }

  ghost function OwnAt(s: Loader, a: Id, b: Id, name: string): set<Handle>
    requires a in s.trees && b in s.trees
  {
    if Twin(s, a, name) then OwnOf(s, a, b, name) else {}
  }

  ghost function SharedAt(s: Loader, a: Id, b: Id, name: string): set<Handle>
    requires a in s.trees && b in s.trees
  {
    if Twin(s, a, name) then SharedOf(s, a, b, name) else {}
  }

  lemma {:induction false} NameAdded(s: Loader, a: Id, b: Id, names: set<string>, name: string)
    requires a in s.trees && b in s.trees
    ensures OwnIn(s, a, b, names + {name}) == OwnIn(s, a, b, names) + OwnAt(s, a, b, name)
    ensures SharedIn(s, a, b, names + {name}) == SharedIn(s, a, b, names) + SharedAt(s, a, b, name)
  {
    hide OwnOf, SharedOf;
  }

  /** What the three sets gained from comparing the nodes of some names. */
  ghost predicate Compared(s: Loader, a: Id, b: Id, names: set<string>,
                           before: set<Handle>, after: set<Handle>, common: set<Handle>,
                           before': set<Handle>, after': set<Handle>, common': set<Handle>)
    requires a in s.trees && b in s.trees
  {
    && before' == before + OwnIn(s, a, b, names)
    && after' == after + OwnIn(s, b, a, names)
    && common' == common + SharedIn(s, a, b, names)
  }

  lemma NoNames(s: Loader, a: Id, b: Id, before: set<Handle>, after: set<Handle>, common: set<Handle>)
    requires a in s.trees && b in s.trees
    ensures Compared(s, a, b, {}, before, after, common, before, after, common)
  {
  }

  lemma OneMoreName(s: Loader, a: Id, b: Id, names: set<string>, name: string,
                    before: set<Handle>, after: set<Handle>, common: set<Handle>,
                    before': set<Handle>, after': set<Handle>, common': set<Handle>)
    requires a in s.trees && b in s.trees
    requires Compared(s, a, b, names, before, after, common, before', after', common')
    ensures Compared(s, a, b, names + {name}, before, after, common, before' + OwnAt(s, a, b, name),
                     after' + OwnAt(s, b, a, name), common' + SharedAt(s, a, b, name))
  {
    hide OwnIn, SharedIn, OwnAt, SharedAt;
    NameAdded(s, a, b, names, name);
    NameAdded(s, b, a, names, name);
  }

  lemma AllNames(s: Loader, a: Id, b: Id, names: set<string>,
                 before: set<Handle>, after: set<Handle>, common: set<Handle>,
                 before': set<Handle>, after': set<Handle>, common': set<Handle>)
    requires a in s.trees && b in s.trees && ByName(s.trees[a]).Keys + ByName(s.trees[b]).Keys <= names
    requires Compared(s, a, b, names, before, after, common, before', after', common')
    ensures before' == before + Own(s, a, b) && after' == after + Own(s, b, a) && common' == common + Shared(s, a, b)
  {
    AllOf(s, a, b, names);
    AllOf(s, b, a, names);
  }

  lemma AllOf(s: Loader, a: Id, b: Id, names: set<string>)
    requires a in s.trees && b in s.trees && ByName(s.trees[a]).Keys <= names
    ensures OwnIn(s, a, b, names) == Own(s, a, b)
    ensures SharedIn(s, a, b, names) == Shared(s, a, b)
  {
    hide OwnOf, SharedOf;
  }

  /** Compares two trees, name by name; equal subtrees are only collected. */
  method DiffTree(s: Loader, c: Comparison, a: Id, b: Id) returns (ok: bool)
    requires c.before != c.after && c.before != c.common && c.after != c.common
    modifies c.before, c.after, c.common
    ensures ok <==> a in s.trees && b in s.trees
    ensures c.before.blobs == old(c.before.blobs) + Own(s, a, b)
    ensures c.after.blobs == old(c.after.blobs) + Own(s, b, a)
    ensures c.common.blobs == old(c.common.blobs) + Shared(s, a, b)
    decreases Level(s, a), Level(s, b), 1
  {
    if a !in s.trees || b !in s.trees {
      return false;
    }
    hide Own, Shared, OwnIn, SharedIn, OwnAt, SharedAt, ByName, LastWins, Compared;
    var nodes1 := NodesByName(s.trees[a]);
    var nodes2 := NodesByName(s.trees[b]);
    var names := nodes1.Keys + nodes2.Keys;
    ghost var done: set<string> := {};
    ghost var before, after, common := c.before.blobs, c.after.blobs, c.common.blobs;
    NoNames(s, a, b, before, after, common);
    while names != {}
      invariant names <= nodes1.Keys + nodes2.Keys <= names + done
      invariant Compared(s, a, b, done, before, after, common, c.before.blobs, c.after.blobs, c.common.blobs)
    {
      var name :| name in names;
      names := names - {name};
      OneMoreName(s, a, b, done, name, before, after, common, c.before.blobs, c.after.blobs, c.common.blobs);
      DiffName(s, c, a, b, name, nodes1, nodes2);
      done := done + {name};
    }
    AllNames(s, a, b, done, before, after, common, c.before.blobs, c.after.blobs, c.common.blobs);
    return true;
  }

  method DiffName(s: Loader, c: Comparison, a: Id, b: Id, name: string, nodes1: map<string, Node>,
                  nodes2: map<string, Node>)
    requires c.before != c.after && c.before != c.common && c.after != c.common
    requires a in s.trees && b in s.trees && nodes1 == ByName(s.trees[a]) && nodes2 == ByName(s.trees[b])
    requires name in nodes1 || name in nodes2
    modifies c.before, c.after, c.common
    ensures c.before.blobs == old(c.before.blobs) + OwnAt(s, a, b, name)
    ensures c.after.blobs == old(c.after.blobs) + OwnAt(s, b, a, name)
    ensures c.common.blobs == old(c.common.blobs) + SharedAt(s, a, b, name)
    decreases Level(s, a), Level(s, b), 0
  {
    hide Own, Shared, Reach, ByName;
    var t1, t2 := name in nodes1, name in nodes2;
    if t1 {
      if IsDir(nodes1[name]) {
        SubtreeIsLower(s, nodes1[name], a);
      }
      AddBlobs(c.before, nodes1[name]);
    }
    if t2 {
      if IsDir(nodes2[name]) {
        SubtreeIsLower(s, nodes2[name], b);
      }
      AddBlobs(c.after, nodes2[name]);
    }
    if t1 && t2 {
      var n, m := nodes1[name], nodes2[name];
      if n.kind == DirNode && m.kind == DirNode {
        var ok: bool;
        if n.subtree.value == m.subtree.value {
          ok := CollectDir(s, c.common, n.subtree.value);
        } else {
          ok := DiffTree(s, c, n.subtree.value, m.subtree.value);
        }
      }
    } else if t1 {
      if nodes1[name].kind == DirNode {
        var ok := CollectDir(s, c.before, nodes1[name].subtree.value);
      }
    } else {
      if nodes2[name].kind == DirNode {
        var ok := CollectDir(s, c.after, nodes2[name].subtree.value);
      }
    }
  }

  /** The blobs counted as removed; with the trees exchanged, those counted as added. */
  ghost function Removed(s: Loader, a: Id, b: Id): set<Handle> {
    ({TreeHandle(a)} + Own(s, a, b)) - ({TreeHandle(b)} + Own(s, b, a)) - Shared(s, a, b)
  }

  method RunDiff(s: Loader, a: Id, b: Id) returns (ok: bool, removed: set<Handle>, added: set<Handle>)
    ensures ok <==> a in s.trees && b in s.trees
    ensures ok ==> removed == Removed(s, a, b) && added == Removed(s, b, a)
  {
    hide Own, Shared;
    var c := new Comparison();
    c.before.Insert(TreeHandle(a));
    c.after.Insert(TreeHandle(b));
    ok := DiffTree(s, c, a, b);
    if !ok {
      return false, {}, {};
    }
    var both := c.before.blobs * c.after.blobs;
    removed := c.before.blobs - both - c.common.blobs;
    added := c.after.blobs - both - c.common.blobs;
    SharedIsSymmetric(s, a, b);
    assert c.before.blobs == {TreeHandle(a)} + Own(s, a, b) && c.after.blobs == {TreeHandle(b)} + Own(s, b, a);
  }

  // ----- What the comparison counts -----

  /** A tree and all blobs below it. */
  ghost function Whole(s: Loader, id: Id): set<Handle> {
    {TreeHandle(id)} + Reach(s, id)
  }

  /** Everything of the first tree that the comparison looks at. */
  ghost function Seen(s: Loader, a: Id, b: Id): set<Handle> {
    {TreeHandle(a)} + Own(s, a, b) + Shared(s, a, b)
  }

  /** The counted blobs are the difference of the two trees exactly when each blob that is
      skipped in the first tree is found elsewhere, and each one that is skipped in the second
      tree is seen there as well if it is seen in the first one. */
  lemma RemovedIsDifferenceIff(s: Loader, a: Id, b: Id)
    ensures Removed(s, a, b) == Whole(s, a) - Whole(s, b)
       <==> Skipped(s, a, b) <= Seen(s, a, b) + Whole(s, b) && Skipped(s, b, a) * Seen(s, a, b) <= Seen(s, b, a)
  {
    hide Own, Shared, Skipped, Reach;
    NothingElseMissing(s, a, b);
    NothingElseMissing(s, b, a);
    SharedIsSymmetric(s, a, b);
    var v1, v2, s1, s2 := Seen(s, a, b), Seen(s, b, a), Skipped(s, a, b), Skipped(s, b, a);
    assert Removed(s, a, b) == v1 - v2 && Whole(s, a) == v1 + s1 && Whole(s, b) == v2 + s2;
    DifferenceUnchanged(v1, v2, s1, s2);
  }

  lemma DifferenceUnchanged(v1: set<Handle>, v2: set<Handle>, s1: set<Handle>, s2: set<Handle>)
    ensures v1 - v2 == (v1 + s1) - (v2 + s2) <==> s1 <= v1 + (v2 + s2) && s2 * v1 <= v2
  {
    if v1 - v2 == (v1 + s1) - (v2 + s2) {
      forall h | h in s1
        ensures h in v1 + (v2 + s2)
      {
        assert h in v1 - v2 <==> h in (v1 + s1) - (v2 + s2);
      }
      forall h | h in s2 * v1
        ensures h in v2
      {
        assert h in v1 - v2 <==> h in (v1 + s1) - (v2 + s2);
      }
    }
  }

  ghost predicate UniqueNames(nodes: seq<Node>) {
    forall i, j :: 0 <= i < j < |nodes| ==> nodes[i].name != nodes[j].name
  }

  /** Everything below the tree loads, and no directory has two nodes of one name. */
  ghost predicate Complete(s: Loader, id: Id)
    decreases Level(s, id), 1
  {
    id in s.trees && UniqueNames(s.trees[id])
    && forall n :: n in s.trees[id] && IsDir(n) ==> CompleteBelow(s, id, n)
  }

  ghost predicate CompleteBelow(s: Loader, id: Id, n: Node)
    requires Stored(s, n, id) && IsDir(n)
    decreases Level(s, id), 0
  {
    SubtreeIsLower(s, n, id);
    Complete(s, n.subtree.value)
  }

  /** No name is a directory in one tree and something else in the other. */
  ghost predicate NoSwitch(s: Loader, a: Id, b: Id)
    decreases Level(s, a), Level(s, b), 1
  {
    forall name :: Twin(s, a, name) && Twin(s, b, name) ==> NoSwitchAt(s, a, b, name)
  }

  ghost predicate NoSwitchAt(s: Loader, a: Id, b: Id, name: string)
    requires Twin(s, a, name) && Twin(s, b, name)
    decreases Level(s, a), Level(s, b), 0
  {
    var n, m := TwinOf(s, a, name), TwinOf(s, b, name);
    if IsDir(n) && IsDir(m) then
      SubtreeIsLower(s, n, a);
      SubtreeIsLower(s, m, b);
      NoSwitch(s, n.subtree.value, m.subtree.value)
    else !IsDir(n) && !IsDir(m)
  }

  lemma {:induction false} UniqueByName(nodes: seq<Node>, n: Node)
    requires UniqueNames(nodes) && n in nodes
    ensures ByName(nodes)[n.name] == n
  {
    var last := |nodes| - 1;
    if n != nodes[last] {
      assert n in nodes[..last];
      UniqueByName(nodes[..last], n);
    }
  }

  lemma {:induction false} NothingSkipped(s: Loader, a: Id, b: Id)
    requires Complete(s, a) && Complete(s, b) && NoSwitch(s, a, b)
    ensures Skipped(s, a, b) == {}
    decreases Level(s, a), Level(s, b)
  {
    forall n | n in s.trees[a]
      ensures SkippedOf(s, a, b, n) == {}
    {
      UniqueByName(s.trees[a], n);
      if IsDir(n) && Twin(s, b, n.name) {
        var m := TwinOf(s, b, n.name);
        assert NoSwitchAt(s, a, b, n.name) && CompleteBelow(s, a, n) && CompleteBelow(s, b, m);
        SubtreeIsLower(s, n, a);
        SubtreeIsLower(s, m, b);
        NothingSkipped(s, n.subtree.value, m.subtree.value);
      }
    }
  }

  lemma {:induction false} NoSwitchSymmetric(s: Loader, a: Id, b: Id)
    requires NoSwitch(s, a, b)
    ensures NoSwitch(s, b, a)
    decreases Level(s, a), Level(s, b)
  {
    forall name | Twin(s, a, name) && Twin(s, b, name)
      ensures NoSwitchAt(s, b, a, name)
    {
      var n, m := TwinOf(s, a, name), TwinOf(s, b, name);
      assert NoSwitchAt(s, a, b, name);
      if IsDir(n) {
        SubtreeIsLower(s, n, a);
        SubtreeIsLower(s, m, b);
        NoSwitchSymmetric(s, n.subtree.value, m.subtree.value);
      }
    }
  }

  /** Leaving out shared subtrees makes no difference: the blobs counted are exactly those of
      the one tree and not of the other. */
  lemma SharingAwareDiffIsDifference(s: Loader, a: Id, b: Id)
    requires Complete(s, a) && Complete(s, b) && NoSwitch(s, a, b)
    ensures Removed(s, a, b) == Whole(s, a) - Whole(s, b)
    ensures Removed(s, b, a) == Whole(s, b) - Whole(s, a)
  {
    NoSwitchSymmetric(s, a, b);
    NothingSkipped(s, a, b);
    NothingSkipped(s, b, a);
    RemovedIsDifferenceIff(s, a, b);
    RemovedIsDifferenceIff(s, b, a);
  }

  // A directory "x" with a file in it becomes a file.
  const IN_DIR: Node := Node("f", FileNode, Some([7]), None)
  const X_DIR: Node := Node("x", DirNode, None, Some(2))
  const X_FILE: Node := Node("x", FileNode, Some([8]), None)
  const SWITCH: Store := Store(map[1 := [X_DIR], 2 := [IN_DIR], 3 := [X_FILE]], map[1 := 2, 2 := 1, 3 := 1])

  /** Where a directory turns into a file, the blobs below it are not counted. */
  lemma SwitchBelow()
    ensures Acyclic(SWITCH)
    ensures var s: Loader := SWITCH;
      && Complete(s, 2) && Complete(s, 3)
      && Reach(s, 2) == {Handle(7, DataBlob)} && Reach(s, 3) == {Handle(8, DataBlob)}
  {
    var s: Loader := SWITCH;
    assert forall n :: n in s.trees[2] <==> n == IN_DIR;
    assert forall n :: n in s.trees[3] <==> n == X_FILE;
    assert Below(s, 2, IN_DIR) == {Handle(7, DataBlob)} && Below(s, 3, X_FILE) == {Handle(8, DataBlob)};
  }

  lemma SwitchNames()
    ensures ByName([X_DIR]) == map["x" := X_DIR] && ByName([X_FILE]) == map["x" := X_FILE]
  {
    assert [X_DIR][..0] == [] && [X_FILE][..0] == [];
  }

  /** Where a directory turns into a file, the blobs below it are not counted. */
  lemma SwitchHidesBlobs()
    ensures Acyclic(SWITCH) && Complete(SWITCH, 1) && Complete(SWITCH, 3)
    ensures Handle(7, DataBlob) in Whole(SWITCH, 1) - Whole(SWITCH, 3)
    ensures Handle(7, DataBlob) !in Removed(SWITCH, 1, 3)
  {
    SwitchBelow();
    SwitchNames();
    var s: Loader := SWITCH;
    assert X_DIR in s.trees[1];
    SubtreeIsLower(s, X_DIR, 1);
    assert CompleteBelow(s, 1, X_DIR) && Handle(7, DataBlob) in Below(s, 1, X_DIR);
    hide ByName;
    assert OwnOf(s, 1, 3, "x") == Refs(X_DIR);
  }

  // ----- The statistics -----

  class DiffStat {
    var dataBlobs: nat
    var treeBlobs: nat
    var bytes: nat
  }

  ghost function SizeOf(blobs: set<Handle>, sizes: map<Handle, nat>): nat {
    if blobs == {} then 0
    else
      var h :| h in blobs;
      SizeOf(blobs - {h}, sizes) + if h in sizes then sizes[h] else 0
  }

  /** The order does not matter. */
  lemma {:induction false} SizeWithout(blobs: set<Handle>, sizes: map<Handle, nat>, h: Handle)
    requires h in blobs
    ensures SizeOf(blobs, sizes) == SizeOf(blobs - {h}, sizes) + if h in sizes then sizes[h] else 0
  {
    var k :| k in blobs && SizeOf(blobs, sizes) == SizeOf(blobs - {k}, sizes) + if k in sizes then sizes[k] else 0;
    if k != h {
      SizeWithout(blobs - {k}, sizes, h);
      SizeWithout(blobs - {h}, sizes, k);
      assert blobs - {k} - {h} == blobs - {h} - {k};
    }
  }

  function OfType(blobs: set<Handle>, tpe: BlobType): set<Handle> {
    set h | h in blobs && h.tpe == tpe
  }

  /** Counts blobs by type and adds up their sizes; a blob of unknown size only counts. */
  method UpdateBlobs(blobs: set<Handle>, sizes: map<Handle, nat>, stats: DiffStat)
    modifies stats
    ensures stats.dataBlobs == old(stats.dataBlobs) + |OfType(blobs, DataBlob)|
    ensures stats.treeBlobs == old(stats.treeBlobs) + |OfType(blobs, TreeBlob)|
    ensures stats.bytes == old(stats.bytes) + SizeOf(blobs, sizes)
  {
    var rest := blobs;
    while rest != {}
      invariant rest <= blobs
      invariant stats.dataBlobs + |OfType(rest, DataBlob)| == old(stats.dataBlobs) + |OfType(blobs, DataBlob)|
      invariant stats.treeBlobs + |OfType(rest, TreeBlob)| == old(stats.treeBlobs) + |OfType(blobs, TreeBlob)|
      invariant stats.bytes + SizeOf(rest, sizes) == old(stats.bytes) + SizeOf(blobs, sizes)
    {
      var h :| h in rest;
      SizeWithout(rest, sizes, h);
      assert OfType(rest - {h}, DataBlob) == OfType(rest, DataBlob) - {h};
      assert OfType(rest - {h}, TreeBlob) == OfType(rest, TreeBlob) - {h};
      rest := rest - {h};
      match h.tpe {
        case DataBlob => stats.dataBlobs := stats.dataBlobs + 1;
        case TreeBlob => stats.treeBlobs := stats.treeBlobs + 1;
        case _ =>
      }
      if h in sizes {
        stats.bytes := stats.bytes + sizes[h];
      }
    }
  }
}
