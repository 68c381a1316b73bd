/** Streaming all trees below some roots (StreamTrees), and finding the blobs that snapshots
    use (FindUsedBlobs).

    The walk and its consumer run side by side.  They touch different handles, so the
    consumer is run on the finished stream here. */
module TreeWalk {
  import opened Repository
  import opened Trees

  /** The result of loading a tree. */
  datatype TreeItem = TreeItem(id: Id, tree: Option<seq<Node>>)

  // ----- Reachability -----

  ghost predicate Edge(f: Forest, a: Id, b: Id) {
    a in f && b != NULL_ID && exists n :: n in f[a] && n.kind == DirNode && n.subtree == Some(b)
  }

  /** A way down from a root to a tree. */
  ghost predicate Path(f: Forest, roots: seq<Id>, p: seq<Id>) {
    p != [] && p[0] in roots && forall i :: 0 <= i < |p| - 1 ==> Edge(f, p[i], p[i + 1])
  }

  ghost predicate Reachable(f: Forest, roots: seq<Id>, id: Id) {
    exists p :: Path(f, roots, p) && p[|p| - 1] == id
  }

  lemma ReachRoot(f: Forest, roots: seq<Id>, id: Id)
    requires id in roots
    ensures Reachable(f, roots, id)
  {
    assert Path(f, roots, [id]);
  }

  lemma ReachEdge(f: Forest, roots: seq<Id>, a: Id, b: Id)
    requires Reachable(f, roots, a) && Edge(f, a, b)
    ensures Reachable(f, roots, b)
  {
    var p :| Path(f, roots, p) && p[|p| - 1] == a;
    assert Path(f, roots, p + [b]);
  }

  ghost predicate ClosedUnder(f: Forest, ids: set<Id>) {
    forall a, b :: a in ids && Edge(f, a, b) ==> b in ids
  }

  /** What is reachable is in every closed set around the roots. */
  lemma {:induction false} ReachableInClosed(f: Forest, roots: seq<Id>, p: seq<Id>, ids: set<Id>)
    requires Path(f, roots, p) && ClosedUnder(f, ids) && forall r :: r in roots ==> r in ids
    ensures p[|p| - 1] in ids
    decreases |p|
  {
    if |p| > 1 {
      ReachableInClosed(f, roots, p[..|p| - 1], ids);
      assert Edge(f, p[|p| - 2], p[|p| - 1]);
    }
  }

  // ----- The walk -----

  function TreeIds(blobs: set<Handle>): set<Id> {
    set h | h in blobs && h.tpe == TreeBlob :: h.id
  }

  function ItemIds(items: seq<TreeItem>): seq<Id> {
    seq(|items|, i requires 0 <= i < |items| => items[i].id)
  }

  function Load(f: Forest, id: Id): TreeItem {
    TreeItem(id, if id in f then Some(f[id]) else None)
  }

  /** The subtrees of a tree in the order of its nodes. */
  function SubtreesOf(nodes: seq<Node>): seq<Id> {
    if nodes == [] then []
    else
      var n := nodes[|nodes| - 1];
      SubtreesOf(nodes[..|nodes| - 1]) + if HasSubtree(n) then [n.subtree.value] else []
  }

  /** The ids that are not null, last one first. */
  function Backwards(ids: seq<Id>): seq<Id> {
    if ids == [] then []
    else Backwards(ids[1..]) + if ids[0] == NULL_ID then [] else [ids[0]]
  }

  lemma {:induction false} SubtreesMember(nodes: seq<Node>, id: Id)
    ensures id in SubtreesOf(nodes) <==> exists n :: n in nodes && HasSubtree(n) && n.subtree.value == id
  {
    if nodes != [] {
      var last := |nodes| - 1;
      SubtreesMember(nodes[..last], id);
      assert nodes == nodes[..last] + [nodes[last]];
    }
  }

  method Subtrees(nodes: seq<Node>) returns (trees: seq<Id>)
    ensures trees == SubtreesOf(nodes)
    ensures forall id :: id in trees <==> exists n :: n in nodes && HasSubtree(n) && n.subtree.value == id
  {
    trees := [];
    for i := 0 to |nodes|
      invariant trees == SubtreesOf(nodes[..i])
    {
      assert nodes[..i + 1][..i] == nodes[..i];
      if nodes[i].kind == DirNode && nodes[i].subtree.Some? {
        trees := trees + [nodes[i].subtree.value];
      }
    }
    assert nodes[..|nodes|] == nodes;
    forall id
      ensures id in trees <==> exists n :: n in nodes && HasSubtree(n) && n.subtree.value == id
    {
      SubtreesMember(nodes, id);
    }
  }

  /** All tree ids there are. */
  ghost function Universe(f: Forest, roots: seq<Id>): set<Id> {
    (set r | r in roots) + set id, n | id in f && n in f[id] && HasSubtree(n) :: n.subtree.value
  }

  lemma EdgeInUniverse(f: Forest, roots: seq<Id>, a: Id, b: Id)
    requires Edge(f, a, b)
    ensures b in Universe(f, roots)
  {
  }

  /** Nothing is forgotten: roots, and what is below trees that are done, is known. */
  ghost predicate Covered(f: Forest, roots: seq<Id>, done: set<Id>, known: set<Id>) {
    && (forall r :: r in roots ==> r in known)
    && (forall a, b :: a in done && Edge(f, a, b) ==> b in known)
  }

  /** Only what is reachable is looked at. */
  ghost predicate OnlyReachable(f: Forest, roots: seq<Id>, ids: set<Id>) {
    ids <= Universe(f, roots) && forall id :: id in ids ==> Reachable(f, roots, id)
  }

  ghost predicate Loaded(f: Forest, items: seq<TreeItem>) {
    forall t :: t in items ==> t == Load(f, t.id)
  }

  function Elements(ids: seq<Id>): set<Id> {
    set id | id in ids
  }

  lemma IdsSnoc(items: seq<TreeItem>, t: TreeItem)
    ensures ItemIds(items + [t]) == ItemIds(items) + [t.id]
    ensures Elements(ItemIds(items + [t])) == Elements(ItemIds(items)) + {t.id}
  {
  }

  /** Taking an element out of the middle. */
  lemma TakenOut(a: seq<Id>, k: nat, b: seq<Id>)
    requires k < |a|
    ensures multiset(a[..k] + a[k + 1..] + b) + multiset{a[k]} == multiset(a + b)
  {
    assert a + b == a[..k] + [a[k]] + (a[k + 1..] + b);
    assert a[..k] + a[k + 1..] + b == a[..k] + (a[k + 1..] + b);
  }

  lemma LastElement(a: seq<Id>)
    requires a != []
    ensures Elements(a) == Elements(a[..|a| - 1]) + {a[|a| - 1]}
  {
    assert a == a[..|a| - 1] + [a[|a| - 1]];
  }

  lemma OneFewer(all: set<Id>, ids: set<Id>, id: Id)
    requires id in all && id !in ids
    ensures |all - (ids + {id})| < |all - ids|
  {
    assert all - (ids + {id}) == all - ids - {id};
  }

  lemma MarkedMore(ids: set<Id>, id: Id)
    ensures Handled(ids + {id}) == Handled(ids) + {TreeHandle(id)}
  {
  }

  lemma OnceChosen(done: seq<Id>, pending: seq<Id>, visited: set<Id>, id: Id)
    requires multiset(done) + multiset(pending) == multiset(visited) && id !in visited
    ensures multiset(done) + multiset(pending + [id]) == multiset(visited + {id})
  {
    assert multiset(visited + {id}) == multiset(visited) + multiset{id};
    assert multiset(pending + [id]) == multiset(pending) + multiset{id};
  }

  lemma OnceArrived(items: seq<TreeItem>, t: TreeItem, loading: seq<Id>, k: nat, rest: seq<Id>, visited: set<Id>)
    requires multiset(ItemIds(items)) + multiset(loading + rest) == multiset(visited)
    requires k < |loading| && t.id == loading[k]
    ensures multiset(ItemIds(items + [t])) + multiset(loading[..k] + loading[k + 1..] + rest) == multiset(visited)
    ensures loading[k] in visited
  {
    hide ItemIds, Elements;
    IdsSnoc(items, t);
    TakenOut(loading, k, rest);
    assert loading[k] in multiset(loading + rest) by { assert (loading + rest)[k] == loading[k]; }
    assert loading[k] in multiset(visited);
  }

  function Handled(ids: set<Id>): set<Handle> {
    set id | id in ids :: TreeHandle(id)
  }

  lemma DoneMore(f: Forest, roots: seq<Id>, items: seq<TreeItem>, id: Id, known: set<Id>)
    requires Loaded(f, items) && Covered(f, roots, Elements(ItemIds(items)), known)
    ensures Loaded(f, items + [Load(f, id)]) && id in Elements(ItemIds(items + [Load(f, id)]))
    ensures Covered(f, roots, Elements(ItemIds(items + [Load(f, id)])) - {id}, known)
  {
    hide Covered, Loaded, Elements, ItemIds;
    IdsSnoc(items, Load(f, id));
    MoreLoaded(f, items, id);
    CoveredBut(f, roots, Elements(ItemIds(items)), id, known);
  }

  /** The roots are all that is known at first. */
  lemma NothingDone(f: Forest, roots: seq<Id>, blobs: set<Handle>)
    ensures ItemIds([]) == [] && Loaded(f, []) && blobs == blobs + Handled({})
    ensures Covered(f, roots, Elements([]), TreeIds(blobs) + {} + Elements(roots))
    ensures OnlyReachable(f, roots, Elements(roots) + {})
  {
    hide TreeIds, Edge;
    forall id | id in roots
      ensures Reachable(f, roots, id)
    {
      ReachRoot(f, roots, id);
    }
  }

  class TreeStream {
    const forest: Forest
    const roots: seq<Id>
    ghost const start: set<Handle>
    var blobs: set<Handle>
    var backlog: seq<Id>
    var next: Option<Id>         // chosen, about to be sent to a worker
    var loading: seq<Id>         // with the workers
    var job: Option<TreeItem>    // loaded, about to be delivered
    var out: seq<TreeItem>
    ghost var visited: set<Id>   // marked during this walk

    constructor (forest: Forest, roots: seq<Id>, blobs: set<Handle>)
      ensures this.forest == forest && this.roots == roots && this.start == blobs && out == []
      ensures Valid()
    {
      this.forest, this.roots, this.start := forest, roots, blobs;
      this.blobs, this.backlog := blobs, roots;
      this.next, this.loading, this.job, this.out, this.visited := None, [], None, [], {};
      new;
      hide OnlyReachable, Covered, Loaded, Elements, TreeIds, Universe, Handled, ItemIds;
      NothingDone(forest, roots, blobs);
    }

    ghost function Done(): seq<TreeItem>
      reads this`out, this`job
    {
      if job.Some? then out + [job.value] else out
    }

    ghost function Pending(): seq<Id>
      reads this`loading, this`next
    {
      loading + if next.Some? then [next.value] else []
    }

    /** Every marked tree is in exactly one place. */
    ghost predicate OnceEach()
      reads this`out, this`job, this`loading, this`next, this`visited
    {
      multiset(ItemIds(Done())) + multiset(Pending()) == multiset(visited)
    }

    ghost function Known(): set<Id>
      reads this`visited, this`backlog
    {
      TreeIds(start) + visited + Elements(backlog)
    }

    ghost predicate Marked()
      reads this`blobs, this`visited
    {
      blobs == start + Handled(visited) && visited !! TreeIds(start)
    }

    ghost predicate Valid()
      reads this
    {
      && OnceEach() && Marked() && Loaded(forest, Done())
      && Covered(forest, roots, Elements(ItemIds(Done())), Known())
      && OnlyReachable(forest, roots, Elements(backlog) + visited)
    }

    ghost function Unmarked(): nat
      reads this`visited
    {
      |Universe(forest, roots) - TreeIds(start) - visited|
    }

    /** How many steps the trees under way still take. */
    ghost function Work(): nat
      reads this`loading, this`next, this`job
    {
      2 * |loading| + (if next.Some? then 3 else 0) + (if job.Some? then 1 else 0)
    }

    /** The skip callback: marks a tree and says whether it was marked before. */
    method Skip(id: Id) returns (referenced: bool)
      modifies this`blobs
      ensures referenced <==> TreeHandle(id) in old(blobs)
      ensures blobs == old(blobs) + {TreeHandle(id)}
    {
      var h := TreeHandle(id);
      referenced := h in blobs;
      blobs := blobs + {h};
    }

    /** Takes the tree that was added last, unless it is marked already. */
    method TakeNext()
      requires Valid() && next == None && backlog != []
      modifies this`backlog, this`blobs, this`next, this`visited
      ensures Valid() && backlog == old(backlog)[..|old(backlog)| - 1]
      ensures var id := old(backlog)[|old(backlog)| - 1];
        && blobs == old(blobs) + {TreeHandle(id)}
        && next == if TreeHandle(id) in old(blobs) then None else Some(id)
      ensures Unmarked() < old(Unmarked()) || (Unmarked() == old(Unmarked()) && Work() == old(Work()) &&
        |backlog| < old(|backlog|))
    {
      hide OnlyReachable, Covered, Loaded, Elements, TreeIds, Universe, Handled, ItemIds, Load, Edge;
      hide OnceEach, Done, Pending, Unmarked, Work;
      var ln := |backlog| - 1;
      var id := backlog[ln];
      LastElement(backlog);
      MarkedIffKnown(id);
      InUniverse(forest, roots, Elements(backlog) + visited, id);
      backlog := backlog[..ln];
      var skipped := Skip(id);
      if skipped {
        assert blobs == old(blobs);
        Skipped(id, old(backlog));
      } else {
        ToChoose(id, old(backlog));
        Choose(id);
      }
    }

    lemma Skipped(id: Id, before: seq<Id>)
      requires OnceEach() && Marked() && Loaded(forest, Done())
      requires Elements(before) == Elements(backlog) + {id} && (id in TreeIds(start) || id in visited)
      requires Covered(forest, roots, Elements(ItemIds(Done())), TreeIds(start) + visited + Elements(before))
      requires OnlyReachable(forest, roots, Elements(before) + visited)
      ensures Valid()
    {
      hide OnlyReachable, Covered, Loaded, Elements, TreeIds, ItemIds;
      assert Known() == TreeIds(start) + visited + Elements(before);
      FewerReachable(forest, roots, Elements(before) + visited, Elements(backlog) + visited);
    }

    lemma ToChoose(id: Id, before: seq<Id>)
      requires Elements(before) == Elements(backlog) + {id}
      ensures Known() + {id} == TreeIds(start) + visited + Elements(before)
      ensures Elements(backlog) + (visited + {id}) == Elements(before) + visited
    {
      hide Elements, TreeIds;
    }

    method Choose(id: Id)
      requires next == None && OnceEach() && Loaded(forest, Done())
      requires visited !! TreeIds(start) && id !in visited && id !in TreeIds(start) && id in Universe(forest, roots)
      requires blobs == start + Handled(visited) + {TreeHandle(id)}
      requires Covered(forest, roots, Elements(ItemIds(Done())), Known() + {id})
      requires OnlyReachable(forest, roots, Elements(backlog) + (visited + {id}))
      modifies this`next, this`visited
      ensures Valid() && next == Some(id) && Unmarked() < old(Unmarked())
    {
      hide OnlyReachable, Covered, Loaded, Elements, TreeIds, Universe, Handled, ItemIds;
      next := Some(id);
      visited := visited + {id};
      assert Known() == old(Known()) + {id};
      MarkedMore(old(visited), id);
      assert Pending() == old(Pending()) + [id];
      OneFewer(Universe(forest, roots) - TreeIds(start), old(visited), id);
      OnceChosen(ItemIds(Done()), old(Pending()), old(visited), id);
    }

    lemma MarkedIffKnown(id: Id)
      requires Marked()
      ensures TreeHandle(id) in blobs <==> id in TreeIds(start) || id in visited
    {
      if TreeHandle(id) in start {
        assert id in TreeIds(start);
      }
    }

    method Send()
      requires Valid() && next.Some?
      modifies this`loading, this`next
      ensures next == None && loading == old(loading) + [old(next).value]
      ensures Valid() && Unmarked() == old(Unmarked()) && Work() < old(Work())
    {
      hide OnlyReachable, Covered, Loaded;
      loading := loading + [next.value];
      next := None;
      assert Pending() == old(Pending());
    }

    ghost predicate ValidBut(id: Id)
      reads this
    {
      && OnceEach() && Marked() && Loaded(forest, Done())
      && id in Elements(ItemIds(Done())) && Covered(forest, roots, Elements(ItemIds(Done())) - {id}, Known())
      && OnlyReachable(forest, roots, Elements(backlog) + visited)
    }

    /** A worker is done with one of the trees. */
    method Receive(k: nat)
      requires Valid() && job == None && k < |loading|
      modifies this`loading, this`job, this`backlog
      ensures Valid() && Unmarked() == old(Unmarked()) && Work() < old(Work())
      ensures loading == old(loading)[..k] + old(loading)[k + 1..]
      ensures var id := old(loading)[k];
        && job == Some(Load(forest, id))
        && backlog == old(backlog) + if id in forest then Backwards(SubtreesOf(forest[id])) else []
    {
      hide OnlyReachable, Covered, Loaded, Edge, Elements, TreeIds, Universe, Handled, ItemIds;
      var id := loading[k];
      Arrive(k);
      if id in forest {
        var subtrees := Subtrees(forest[id]);
        EdgesOf(forest, id, subtrees);
        PushSubtrees(id, subtrees);
      } else {
        NoEdges(forest, id);
      }
      MoreCovered(forest, roots, Elements(ItemIds(Done())), id, Known());
    }

    lemma LoadsOnce(k: nat)
      requires OnceEach() && job == None && k < |loading|
      ensures loading[k] in visited
      ensures multiset(ItemIds(out + [Load(forest, loading[k])]))
        + multiset(loading[..k] + loading[k + 1..] + if next.Some? then [next.value] else []) == multiset(visited)
    {
      hide ItemIds, Elements;
      OnceArrived(out, Load(forest, loading[k]), loading, k, if next.Some? then [next.value] else [], visited);
    }

    method Arrive(k: nat)
      requires Valid() && job == None && k < |loading|
      modifies this`loading, this`job
      ensures ValidBut(old(loading)[k]) && old(loading)[k] in visited
      ensures job == Some(Load(forest, old(loading)[k])) && loading == old(loading)[..k] + old(loading)[k + 1..]
      ensures Work() < old(Work())
    {
      hide OnlyReachable, Covered, Loaded, Edge, Elements, TreeIds, Universe, Handled, ItemIds, Load;
      hide Marked, Known;
      var id := loading[k];
      LoadsOnce(k);
      DoneMore(forest, roots, out, id, Known());
      loading := loading[..k] + loading[k + 1..];
      job := Some(Load(forest, id));
    }

    method PushSubtrees(id: Id, subtrees: seq<Id>)
      requires ValidBut(id) && id in visited
      requires forall b :: Edge(forest, id, b) <==> b in subtrees && b != NULL_ID
      modifies this`backlog
      ensures OnlyReachable(forest, roots, Elements(backlog) + visited)
      ensures ValidBut(id) && forall b :: Edge(forest, id, b) ==> b in Elements(backlog)
      ensures backlog == old(backlog) + Backwards(subtrees)
    {
      hide Edge, OnlyReachable, Covered, Loaded, Elements, TreeIds, Universe, Handled, ItemIds;
      var i := |subtrees|;
      while i > 0
        invariant 0 <= i <= |subtrees|
        invariant OnlyReachable(forest, roots, Elements(backlog) + visited)
        invariant Elements(old(backlog)) <= Elements(backlog) && backlog == old(backlog) + Backwards(subtrees[i..])
        invariant forall b :: b in subtrees[i..] && b != NULL_ID ==> b in Elements(backlog)
      {
        i := i - 1;
        assert subtrees[i..] == [subtrees[i]] + subtrees[i + 1..];
        if subtrees[i] != NULL_ID {
          LastElement(backlog + [subtrees[i]]);
          assert (backlog + [subtrees[i]])[..|backlog|] == backlog;
          MoreReachable(forest, roots, Elements(backlog) + visited, id, subtrees[i]);
          assert Elements(backlog + [subtrees[i]]) + visited == Elements(backlog) + visited + {subtrees[i]};
          backlog := backlog + [subtrees[i]];
        }
      }
      MoreKnown(forest, roots, Elements(ItemIds(Done())) - {id}, old(Known()), Known());
    }

    method Deliver()
      requires Valid() && job.Some?
      modifies this`out, this`job
      ensures out == old(out) + [old(job).value] && job == None
      ensures Valid() && Unmarked() == old(Unmarked()) && Work() < old(Work())
    {
      hide OnlyReachable, Covered, Loaded, Elements, TreeIds, Universe, Handled, ItemIds;
      out := out + [job.value];
      job := None;
      assert Done() == old(Done());
    }

    /** The loop: whatever is possible next may happen next. */
    method Run()
      requires Valid()
      modifies this
      ensures Valid() && backlog == [] && next == None && loading == [] && job == None
    {
      while true
        invariant Valid()
        decreases Unmarked(), Work(), |backlog|
      {
        if next == None && backlog != [] {
          TakeNext();
        } else if next == None && job == None && loading == [] {
          return;
        } else {
          var k: nat :| k <= |loading|;
          if
          case next.Some? => Send();
          case job.Some? => Deliver();
          case job == None && k < |loading| => Receive(k);
          case job == None && loading != [] => Receive(0);
        }
      }
    }
  }

  lemma MoreReachable(f: Forest, roots: seq<Id>, ids: set<Id>, a: Id, b: Id)
    requires OnlyReachable(f, roots, ids) && a in ids && Edge(f, a, b)
    ensures OnlyReachable(f, roots, ids + {b})
  {
    ReachEdge(f, roots, a, b);
    EdgeInUniverse(f, roots, a, b);
  }

  lemma FewerReachable(f: Forest, roots: seq<Id>, more: set<Id>, ids: set<Id>)
    requires OnlyReachable(f, roots, more) && ids <= more
    ensures OnlyReachable(f, roots, ids)
  {
  }

  lemma InUniverse(f: Forest, roots: seq<Id>, ids: set<Id>, id: Id)
    requires OnlyReachable(f, roots, ids) && id in ids
    ensures id in Universe(f, roots)
  {
  }

  lemma MoreLoaded(f: Forest, items: seq<TreeItem>, id: Id)
    requires Loaded(f, items)
    ensures Loaded(f, items + [Load(f, id)])
  {
  }

  lemma EdgesOf(f: Forest, id: Id, subtrees: seq<Id>)
    requires id in f && forall b :: b in subtrees <==> exists n :: n in f[id] && HasSubtree(n) && n.subtree.value == b
    ensures forall b :: Edge(f, id, b) <==> b in subtrees && b != NULL_ID
  {
  }

  lemma NoEdges(f: Forest, id: Id)
    requires id !in f
    ensures forall b :: !Edge(f, id, b)
  {
  }

  lemma CoveredBut(f: Forest, roots: seq<Id>, done: set<Id>, id: Id, known: set<Id>)
    requires Covered(f, roots, done, known)
    ensures id in done + {id} && Covered(f, roots, done + {id} - {id}, known)
  {
  }

  lemma MoreKnown(f: Forest, roots: seq<Id>, done: set<Id>, known: set<Id>, more: set<Id>)
    requires Covered(f, roots, done, known) && known <= more
    ensures Covered(f, roots, done, more)
  {
  }

  lemma MoreCovered(f: Forest, roots: seq<Id>, done: set<Id>, id: Id, known: set<Id>)
    requires Covered(f, roots, done - {id}, known)
    requires forall b :: Edge(f, id, b) ==> b in known
    ensures Covered(f, roots, done, known)
  {
  }

  // ----- The finished stream -----

  /** Every tree that is reachable without passing a marked one is delivered once. */
  ghost predicate Streamed(f: Forest, roots: seq<Id>, start: set<Handle>, items: seq<TreeItem>) {
    && NoDuplicates(ItemIds(items))
    && Elements(ItemIds(items)) !! TreeIds(start)
    && Loaded(f, items)
    && Covered(f, roots, Elements(ItemIds(items)), TreeIds(start) + Elements(ItemIds(items)))
    && OnlyReachable(f, roots, Elements(ItemIds(items)))
  }

  ghost predicate NoDuplicates(ids: seq<Id>) {
    multiset(ids) == multiset(Elements(ids))
  }

  lemma SetOfMultiset(ids: seq<Id>, all: set<Id>)
    requires multiset(ids) == multiset(all)
    ensures Elements(ids) == all
  {
    assert forall id :: id in ids <==> id in multiset(ids);
    assert forall id :: id in all <==> id in multiset(all);
  }

  /** Delivers the trees below the roots; a tree that is marked already, or appears again, is
      skipped with everything below it. */
  method StreamTrees(f: Forest, roots: seq<Id>, start: set<Handle>) returns (items: seq<TreeItem>, blobs: set<Handle>)
    ensures Streamed(f, roots, start, items)
    ensures blobs == start + Handled(Elements(ItemIds(items)))
  {
    var stream := new TreeStream(f, roots, start);
    stream.Run();
    items, blobs := stream.out, stream.blobs;
    SetOfMultiset(ItemIds(items), stream.visited);
    assert Elements([]) == {};
  }

  /** A blob that the snapshots use: a tree below one of the roots, or the content of a file
      in such a tree. */
  ghost predicate Used(f: Forest, roots: seq<Id>, h: Handle) {
    || (h.tpe == TreeBlob && Reachable(f, roots, h.id))
    || exists id :: Reachable(f, roots, id) && id in f && HoldsContent(f[id], h)
  }

  /** The blob is at some position in the content list of a file. */
  ghost predicate HoldsContent(nodes: seq<Node>, h: Handle) {
    exists n, j: nat :: n in nodes && n.kind == FileNode && n.content.Some? && j < |n.content.value|
      && h == Handle(n.content.value[j], DataBlob)
  }

  lemma ContentIff(nodes: seq<Node>, h: Handle)
    ensures h in ContentHandles(nodes) <==> HoldsContent(nodes, h)
  {
    if h in ContentHandles(nodes) {
      var n :| n in nodes && h in DataHandles(n);
      var j: nat :| j < |n.content.value| && n.content.value[j] == h.id;
    }
    if HoldsContent(nodes, h) {
      var n, j: nat :| n in nodes && n.kind == FileNode && n.content.Some? && j < |n.content.value|
        && h == Handle(n.content.value[j], DataBlob);
      assert h in DataHandles(n);
    }
  }

  function ContentHandles(nodes: seq<Node>): set<Handle> {
    set n, h | n in nodes && h in DataHandles(n) :: h
  }

  /** What is below a marked tree is marked as well. */
  ghost predicate Settled(f: Forest, start: set<Handle>) {
    && ClosedUnder(f, TreeIds(start))
    && forall id :: id in TreeIds(start) && id in f ==> ContentHandles(f[id]) <= start
  }

  /** All trees below the roots load, except perhaps those marked from the start. */
  ghost predicate AllLoad(f: Forest, roots: seq<Id>, start: set<Handle>) {
    forall id :: Reachable(f, roots, id) ==> id in f || id in TreeIds(start)
  }

  /** The stream reaches everything that is reachable. */
  lemma StreamIsComplete(f: Forest, roots: seq<Id>, start: set<Handle>, items: seq<TreeItem>)
    requires Streamed(f, roots, start, items) && ClosedUnder(f, TreeIds(start))
    ensures forall id :: Reachable(f, roots, id) ==> id in TreeIds(start) + Elements(ItemIds(items))
  {
    var all := TreeIds(start) + Elements(ItemIds(items));
    forall id | Reachable(f, roots, id)
      ensures id in all
    {
      var p :| Path(f, roots, p) && p[|p| - 1] == id;
      assert ClosedUnder(f, all);
      ReachableInClosed(f, roots, p, all);
    }
  }

  method AddContent(nodes: seq<Node>, blobs: set<Handle>) returns (r: set<Handle>)
    ensures r == blobs + ContentHandles(nodes)
  {
    r := blobs;
    for i := 0 to |nodes|
      invariant r == blobs + ContentHandles(nodes[..i])
    {
      assert nodes[..i + 1] == nodes[..i] + [nodes[i]];
      assert ContentHandles(nodes[..i + 1]) == ContentHandles(nodes[..i]) + DataHandles(nodes[i]);
      ghost var before := r;
      if nodes[i].kind == FileNode {
        var content := ContentOf(nodes[i]);
        for j := 0 to |content|
          invariant r == before + set id | id in content[..j] :: Handle(id, DataBlob)
        {
          assert content[..j + 1] == content[..j] + [content[j]];
          r := r + {Handle(content[j], DataBlob)};
        }
        assert content[..|content|] == content;
      }
    }
    assert nodes[..|nodes|] == nodes;
  }

  ghost function ContentUpTo(items: seq<TreeItem>): set<Handle> {
    set t, h | t in items && t.tree.Some? && h in ContentHandles(t.tree.value) :: h
  }

  lemma ContentSnoc(items: seq<TreeItem>, i: nat)
    requires i < |items| && items[i].tree.Some?
    ensures ContentUpTo(items[..i + 1]) == ContentUpTo(items[..i]) + ContentHandles(items[i].tree.value)
  {
    hide ContentHandles;
    assert items[..i + 1] == items[..i] + [items[i]];
  }

  /** Adds all blobs that the trees below the roots use to a set.  Fails if one of the trees
      does not load. */
  method FindUsedBlobs(f: Forest, roots: seq<Id>, start: set<Handle>) returns (ok: bool, blobs: set<Handle>)
    ensures Settled(f, start) ==> (ok <==> AllLoad(f, roots, start))
    ensures Settled(f, start) && ok ==> forall h :: h in blobs <==> h in start || Used(f, roots, h)
  {
    hide Streamed, Settled, AllLoad, Used, Handled, ContentHandles, ContentUpTo;
    var items;
    items, blobs := StreamTrees(f, roots, start);
    ghost var trees := blobs;
    assert ContentUpTo(items[..0]) == {} by { NoContent(); }
    for i := 0 to |items|
      invariant forall k :: 0 <= k < i ==> items[k].tree.Some?
      invariant blobs == trees + ContentUpTo(items[..i])
    {
      if items[i].tree.None? {
        if Settled(f, start) {
          MissingTree(f, roots, start, items, i);
        }
        return false, blobs;
      }
      ContentSnoc(items, i);
      blobs := AddContent(items[i].tree.value, blobs);
    }
    assert items[..|items|] == items;
    if Settled(f, start) {
      FoundAll(f, roots, start, items);
      FoundOnlyUsed(f, roots, start, items);
    }
    return true, blobs;
  }

  lemma NoContent()
    ensures ContentUpTo([]) == {}
  {
  }

  lemma MissingTree(f: Forest, roots: seq<Id>, start: set<Handle>, items: seq<TreeItem>, i: nat)
    requires Streamed(f, roots, start, items) && i < |items| && items[i].tree.None?
    ensures !AllLoad(f, roots, start)
  {
    var t := items[i];
    assert t in items && t.id == ItemIds(items)[i];
    assert t.id in Elements(ItemIds(items));
  }

  lemma ItemOf(items: seq<TreeItem>, id: Id) returns (t: TreeItem)
    requires id in ItemIds(items)
    ensures t in items && t.id == id
  {
    var i :| 0 <= i < |items| && ItemIds(items)[i] == id;
    t := items[i];
  }

  lemma FoundAll(f: Forest, roots: seq<Id>, start: set<Handle>, items: seq<TreeItem>)
    requires Streamed(f, roots, start, items) && Settled(f, start)
    requires forall k :: 0 <= k < |items| ==> items[k].tree.Some?
    ensures AllLoad(f, roots, start)
    ensures forall h :: Used(f, roots, h) ==> h in start + Handled(Elements(ItemIds(items))) + ContentUpTo(items)
  {
    StreamIsComplete(f, roots, start, items);
    forall id | Reachable(f, roots, id) && id !in TreeIds(start)
      ensures id in f && ContentHandles(f[id]) <= ContentUpTo(items)
    {
      var t := ItemOf(items, id);
      assert t == Load(f, id);
    }
    forall h | Used(f, roots, h)
      ensures h in start + Handled(Elements(ItemIds(items))) + ContentUpTo(items)
    {
      if h.tpe == TreeBlob && Reachable(f, roots, h.id) {
        if h.id in TreeIds(start) {
          var k :| k in start && k.tpe == TreeBlob && k.id == h.id;
          assert k == h;
        } else {
          assert h == TreeHandle(h.id);
        }
      } else {
        var id :| Reachable(f, roots, id) && id in f && HoldsContent(f[id], h);
        ContentIff(f[id], h);
      }
    }
  }

  lemma FoundOnlyUsed(f: Forest, roots: seq<Id>, start: set<Handle>, items: seq<TreeItem>)
    requires Streamed(f, roots, start, items)
    ensures forall h :: h in Handled(Elements(ItemIds(items))) + ContentUpTo(items) ==> Used(f, roots, h)
  {
    forall h | h in Handled(Elements(ItemIds(items)))
      ensures Used(f, roots, h)
    {
    }
    forall h | h in ContentUpTo(items)
      ensures Used(f, roots, h)
    {
      var t :| t in items && t.tree.Some? && h in ContentHandles(t.tree.value);
      var i :| 0 <= i < |items| && items[i] == t;
      assert ItemIds(items)[i] == t.id;
      assert t.id in Elements(ItemIds(items)) && t == Load(f, t.id);
      assert Reachable(f, roots, t.id) && t.id in f;
      ContentIff(f[t.id], h);
    }
  }
}
