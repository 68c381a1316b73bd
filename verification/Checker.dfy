/** Checking a repository (Structure, checkTree, Packs), and what a check without findings
    means for planning a prune. */
module Checker {
  import opened Repository
  import opened Trees
  import opened TreeWalk
  import opened PruneSelection
  import opened PruneDecision
  import opened PrunePlanning

  // ----- Trees -----

  /** What can be wrong with a node, given by its position in the tree. */
  datatype Fault =
    | NilContent(node: nat)
    | NullBlob(node: nat, blob: nat)
    | NotInIndex(node: nat, blob: nat)
    | NoSubtree(node: nat)
    | NullSubtree(node: nat)
    | InvalidType(node: nat)
    | EmptyName(node: nat)

  predicate BadSubtree(n: Node) {
    n.kind == DirNode && (n.subtree.None? || n.subtree.value == NULL_ID)
  }

  predicate Faulty(nodes: seq<Node>, index: set<Handle>, e: Fault) {
    e.node < |nodes| &&
    var n := nodes[e.node];
    match e
    case NilContent(_) => n.kind == FileNode && n.content.None?
    case NullBlob(_, b) =>
      n.kind == FileNode && n.content.Some? && b < |n.content.value| && n.content.value[b] == NULL_ID
    case NotInIndex(_, b) =>
      n.kind == FileNode && n.content.Some? && b < |n.content.value| && n.content.value[b] != NULL_ID &&
        Handle(n.content.value[b], DataBlob) !in index
    case NoSubtree(_) => n.kind == DirNode && n.subtree.None?
    case NullSubtree(_) => n.kind == DirNode && n.subtree == Some(NULL_ID)
    case InvalidType(_) => n.kind == UnknownNode
    // a directory without a proper subtree is not looked at any further
    case EmptyName(_) => n.name == "" && !BadSubtree(n)
  }

  ghost predicate FaultsOf(nodes: seq<Node>, index: set<Handle>, i: nat, errs: seq<Fault>) {
    forall e :: e in errs <==> e.node < i && Faulty(nodes, index, e)
  }

  predicate ContentFault(nodes: seq<Node>, index: set<Handle>, i: nat, j: nat, e: Fault) {
    e.node == i && Faulty(nodes, index, e) && (e.NilContent? || ((e.NullBlob? || e.NotInIndex?) && e.blob < j))
  }

  method CheckContent(nodes: seq<Node>, index: set<Handle>, i: nat) returns (errs: seq<Fault>)
    requires i < |nodes| && nodes[i].kind == FileNode
    ensures forall e :: e in errs <==>
      e.node == i && Faulty(nodes, index, e) && (e.NilContent? || e.NullBlob? || e.NotInIndex?)
  {
    var content := ContentOf(nodes[i]);
    errs := if nodes[i].content.None? then [NilContent(i)] else [];
    for b := 0 to |content|
      invariant forall e :: e in errs <==> ContentFault(nodes, index, i, b, e)
    {
      if content[b] == NULL_ID {
        errs := errs + [NullBlob(i, b)];
      } else if Handle(content[b], DataBlob) !in index {
        errs := errs + [NotInIndex(i, b)];
      }
    }
  }

  method CheckNode(nodes: seq<Node>, index: set<Handle>, i: nat) returns (errs: seq<Fault>)
    requires i < |nodes|
    ensures forall e :: e in errs <==> e.node == i && Faulty(nodes, index, e)
  {
    var n := nodes[i];
    errs := [];
    match n.kind {
      case FileNode => errs := CheckContent(nodes, index, i);
      case DirNode =>
        if n.subtree.None? {
          return [NoSubtree(i)];
        }
        if n.subtree.value == NULL_ID {
          return [NullSubtree(i)];
        }
      case SpecialNode =>
      case UnknownNode => errs := [InvalidType(i)];
    }
    if n.name == "" {
      errs := errs + [EmptyName(i)];
    }
  }

  /** Lists what is wrong with a tree, and nothing else. */
  method CheckTree(nodes: seq<Node>, index: set<Handle>) returns (errs: seq<Fault>)
    ensures FaultsOf(nodes, index, |nodes|, errs)
  {
    hide Faulty;
    errs := [];
    for i := 0 to |nodes|
      invariant FaultsOf(nodes, index, i, errs)
    {
      var more := CheckNode(nodes, index, i);
      errs := errs + more;
    }
  }

  ghost predicate SoundTree(f: Forest, index: set<Handle>, id: Id) {
    id in f && forall e :: !Faulty(f[id], index, e)
  }

  /** Every tree that the snapshots refer to loads and is as it should be. */
  ghost predicate Sound(f: Forest, roots: seq<Id>, index: set<Handle>) {
    forall id :: Reachable(f, roots, id) ==> SoundTree(f, index, id)
  }

  datatype TreeError = NotLoaded(id: Id) | TreeError(id: Id, errors: seq<Fault>)

  function NonNull(blobs: set<Handle>): set<Handle> {
    set h | h in blobs && h.id != NULL_ID
  }

  function TreesWith(errs: seq<TreeError>): set<Id> {
    set e | e in errs :: e.id
  }

  ghost function Unsound(f: Forest, index: set<Handle>, items: seq<TreeItem>): set<Id> {
    set t | t in items && !SoundTree(f, index, t.id) :: t.id
  }

  /** What a worker does with one tree. */
  method CheckItem(f: Forest, index: set<Handle>, t: TreeItem, trackUnused: bool, refs: set<Handle>)
    returns (errs: seq<TreeError>, r: set<Handle>)
    requires t == Load(f, t.id)
    ensures TreesWith(errs) == if SoundTree(f, index, t.id) then {} else {t.id}
    ensures trackUnused ==> r == refs + NonNull(ContentUpTo([t]))
    ensures !trackUnused ==> r == refs
  {
    hide Faulty, ContentHandles;
    r := refs;
    if t.tree.None? {
      return [NotLoaded(t.id)], r;
    }
    var faults := CheckTree(t.tree.value, index);
    if trackUnused {
      var more := AddContent(t.tree.value, {});
      assert ContentUpTo([t]) == more;
      r := refs + NonNull(more);
    }
    if |faults| > 0 {
      assert faults[0] in faults;
      return [TreeError(t.id, faults)], r;
    }
    NoFaults(t.tree.value, index);
    return [], r;
  }

  lemma NoFaults(nodes: seq<Node>, index: set<Handle>)
    requires FaultsOf(nodes, index, |nodes|, [])
    ensures forall e :: !Faulty(nodes, index, e)
  {
    forall e
      ensures !Faulty(nodes, index, e)
    {
      var none: seq<Fault> := [];
      assert e in none <==> e.node < |nodes| && Faulty(nodes, index, e);
    }
  }

  lemma OneMoreItem(f: Forest, index: set<Handle>, items: seq<TreeItem>, i: nat)
    requires i < |items|
    ensures Unsound(f, index, items[..i + 1])
         == Unsound(f, index, items[..i]) + if SoundTree(f, index, items[i].id) then {} else {items[i].id}
    ensures NonNull(ContentUpTo(items[..i + 1])) == NonNull(ContentUpTo(items[..i])) + NonNull(ContentUpTo([items[i]]))
  {
    hide SoundTree, ContentHandles;
    assert items[..i + 1] == items[..i] + [items[i]];
  }

  lemma MoreTrees(errs: seq<TreeError>, more: seq<TreeError>)
    ensures TreesWith(errs + more) == TreesWith(errs) + TreesWith(more)
  {
  }

  /** Checks all trees below the roots, each of them once.  The data blobs they refer to are
      only collected to find unused blobs later. */
  method Structure(f: Forest, roots: seq<Id>, index: set<Handle>, trackUnused: bool)
    returns (errs: seq<TreeError>, refs: set<Handle>)
    ensures forall id :: id in TreesWith(errs) <==> Reachable(f, roots, id) && !SoundTree(f, index, id)
    ensures errs == [] <==> Sound(f, roots, index)
    ensures errs == [] && trackUnused ==> forall h :: h in refs <==> Used(f, roots, h)
  {
    hide Streamed, SoundTree, Sound, Faulty, Used, Handled, ContentHandles, ContentUpTo, Unsound, TreesWith, NonNull;
    var items;
    items, refs := StreamTrees(f, roots, {});
    ghost var trees := refs;
    StartEmpty(f, index);
    errs := [];
    for i := 0 to |items|
      invariant TreesWith(errs) == Unsound(f, index, items[..i])
      invariant trackUnused ==> refs == trees + NonNull(ContentUpTo(items[..i]))
    {
      ItemIsLoad(f, roots, items, i);
      var more, r := CheckItem(f, index, items[i], trackUnused, refs);
      OneMoreItem(f, index, items, i);
      MoreTrees(errs, more);
      errs, refs := errs + more, r;
    }
    assert items[..|items|] == items;
    AllChecked(f, roots, index, items, errs);
    if errs == [] {
      SoundRefs(f, roots, index, items);
      FoundOnlyUsed(f, roots, {}, items);
    }
  }

  lemma StartEmpty(f: Forest, index: set<Handle>)
    ensures TreesWith([]) == {} && Unsound(f, index, []) == {} && NonNull(ContentUpTo([])) == {}
  {
  }

  lemma ItemIsLoad(f: Forest, roots: seq<Id>, items: seq<TreeItem>, i: nat)
    requires Streamed(f, roots, {}, items) && i < |items|
    ensures items[i] == Load(f, items[i].id)
  {
    assert items[i] in items;
  }

  lemma AllChecked(f: Forest, roots: seq<Id>, index: set<Handle>, items: seq<TreeItem>, errs: seq<TreeError>)
    requires Streamed(f, roots, {}, items) && TreesWith(errs) == Unsound(f, index, items)
    ensures forall id :: id in TreesWith(errs) <==> Reachable(f, roots, id) && !SoundTree(f, index, id)
    ensures errs == [] <==> Sound(f, roots, index)
  {
    hide SoundTree, Covered;
    StreamIsComplete(f, roots, {}, items) by { assert TreeIds({}) == {}; }
    forall id | Reachable(f, roots, id)
      ensures exists t :: t in items && t.id == id
    {
      var t := ItemOf(items, id) by { assert id in Elements(ItemIds(items)); }
    }
    forall t | t in items
      ensures Reachable(f, roots, t.id)
    {
      var i :| 0 <= i < |items| && items[i] == t;
      assert ItemIds(items)[i] == t.id;
      assert t.id in Elements(ItemIds(items));
    }
    if errs != [] {
      assert errs[0].id in TreesWith(errs);
    }
  }

  /** In sound trees there are no null ids, so nothing is left out of the references. */
  lemma SoundRefs(f: Forest, roots: seq<Id>, index: set<Handle>, items: seq<TreeItem>)
    requires Streamed(f, roots, {}, items) && Sound(f, roots, index)
    ensures NonNull(ContentUpTo(items)) == ContentUpTo(items)
    ensures forall h :: Used(f, roots, h) ==> h in {} + Handled(Elements(ItemIds(items))) + ContentUpTo(items)
  {
    forall h | h in ContentUpTo(items)
      ensures h.id != NULL_ID
    {
      var t :| t in items && t.tree.Some? && h in ContentHandles(t.tree.value);
      ItemReachable(f, roots, items, t);
      ContentIsIndexed(f, index, t.id, h);
    }
    forall k | 0 <= k < |items|
      ensures items[k].tree.Some?
    {
      ItemReachable(f, roots, items, items[k]);
      assert SoundTree(f, index, items[k].id);
    }
    FoundAll(f, roots, {}, items) by { assert TreeIds({}) == {}; }
  }

  lemma ItemReachable(f: Forest, roots: seq<Id>, items: seq<TreeItem>, t: TreeItem)
    requires Streamed(f, roots, {}, items) && t in items
    ensures Reachable(f, roots, t.id) && t == Load(f, t.id)
  {
    var i :| 0 <= i < |items| && items[i] == t;
    assert ItemIds(items)[i] == t.id;
    assert t.id in Elements(ItemIds(items));
  }

  /** The content of a sound tree is in the index and has no null ids. */
  lemma ContentIsIndexed(f: Forest, index: set<Handle>, id: Id, h: Handle)
    requires SoundTree(f, index, id) && h in ContentHandles(f[id])
    ensures h.id != NULL_ID && h in index
  {
    var n :| n in f[id] && h in DataHandles(n);
    var i :| 0 <= i < |f[id]| && f[id][i] == n;
    var b :| 0 <= b < |ContentOf(n)| && ContentOf(n)[b] == h.id;
    assert !Faulty(f[id], index, NullBlob(i, b)) && !Faulty(f[id], index, NotInIndex(i, b));
  }

  /** Entries of the index that no snapshot refers to. */
  method UnusedBlobs(idx: seq<Entry>, refs: set<Handle>) returns (blobs: seq<Handle>)
    ensures forall h :: h in blobs <==> h in Handles(idx) && h !in refs
  {
    blobs := [];
    for i := 0 to |idx|
      invariant forall h :: h in blobs <==> h in Handles(idx[..i]) && h !in refs
    {
      assert idx[..i + 1] == idx[..i] + [idx[i]];
      if idx[i].h !in refs {
        blobs := blobs + [idx[i].h];
      }
    }
    assert idx[..|idx|] == idx;
  }

  // ----- Packs -----

  datatype PackError = Missing(id: Id) | WrongSize(id: Id, size: nat) | Orphaned(id: Id)

  /** What can be wrong with a pack, given the sizes that follow from the index. */
  ghost predicate PackFault(sizes: map<Id, nat>, files: seq<File>, e: PackError) {
    match e
    case Missing(id) => id in sizes && id !in Listed(files)
    case WrongSize(id, size) => id in sizes && File(id, size) in files && size != sizes[id]
    case Orphaned(id) => id !in sizes && id in Listed(files)
  }

  method ListFiles(files: seq<File>) returns (m: map<Id, nat>)
    requires ListedOnce(files)
    ensures m.Keys == Listed(files)
    ensures forall id :: id in m ==> File(id, m[id]) in files
    ensures forall f :: f in files ==> f.id in m && m[f.id] == f.size
  {
    m := map[];
    for i := 0 to |files|
      invariant m.Keys == Listed(files[..i])
      invariant forall id :: id in m ==> File(id, m[id]) in files[..i]
      invariant forall f :: f in files[..i] ==> f.id in m && m[f.id] == f.size
    {
      assert files[..i + 1] == files[..i] + [files[i]];
      m := m[files[i].id := files[i].size];
    }
    assert files[..|files|] == files;
  }

  /** Compares the packs in the index with the packs that are there: lists the missing ones,
      those of the wrong size and those the index does not know, and nothing else. */
  method CheckPacks(sizes: map<Id, nat>, files: seq<File>) returns (errs: seq<PackError>)
    requires ListedOnce(files)
    ensures forall e :: e in errs <==> PackFault(sizes, files, e)
  {
    var repoPacks := ListFiles(files);
    ghost var all := repoPacks;
    errs := [];
    var rest := sizes.Keys;
    while rest != {}
      invariant rest <= sizes.Keys
      invariant repoPacks == all - (sizes.Keys - rest)
      invariant forall e :: e in errs <==> !e.Orphaned? && e.id !in rest && PackFault(sizes, files, e)
    {
      var id :| id in rest;
      var ok := id in repoPacks;
      var size := if ok then repoPacks[id] else 0;
      repoPacks := repoPacks - {id};
      rest := rest - {id};
      if !ok {
        errs := errs + [Missing(id)];
      } else if sizes[id] != size {
        errs := errs + [WrongSize(id, size)];
      }
    }
    rest := repoPacks.Keys;
    while rest != {}
      invariant rest <= repoPacks.Keys
      invariant forall e :: e in errs <==> PackFault(sizes, files, e) && (e.Orphaned? ==> e.id !in rest)
    {
      var id :| id in rest;
      rest := rest - {id};
      errs := errs + [Orphaned(id)];
    }
  }

  // ----- A clean check -----

  /** The sizes of all packs as they follow from the index. */
  function IndexSizes(idx: seq<Entry>): map<Id, nat> {
    map p | p in Packs(idx) :: PackSize(idx, p, false)
  }

  /** No findings, except for packs that the index does not know. */
  ghost predicate PacksClean(sizes: map<Id, nat>, files: seq<File>) {
    forall e :: PackFault(sizes, files, e) ==> e.Orphaned?
  }

  /** Trees are loaded through the index. */
  ghost predicate LoadedThrough(f: Forest, index: set<Handle>) {
    forall id :: id in f ==> TreeHandle(id) in index
  }

  /** In a sound repository the used blobs can be found, and they are in the index. */
  lemma SoundMeansIndexed(f: Forest, roots: seq<Id>, index: set<Handle>)
    requires Sound(f, roots, index) && LoadedThrough(f, index)
    ensures AllLoad(f, roots, {})
    ensures forall h :: Used(f, roots, h) ==> h in index
  {
    forall id | Reachable(f, roots, id)
      ensures id in f
    {
      assert SoundTree(f, index, id);
    }
    forall h | Used(f, roots, h)
      ensures h in index
    {
      if h.tpe == TreeBlob && Reachable(f, roots, h.id) {
        assert h == TreeHandle(h.id);
      } else {
        var id :| Reachable(f, roots, id) && id in f && HoldsContent(f[id], h);
        ContentIff(f[id], h);
        ContentIsIndexed(f, index, id, h);
      }
    }
  }

  /** With all packs there and of the right size, planning finds nothing to complain about
      and no pack to forget, whatever blobs are used. */
  lemma CleanPacksFit(files: seq<File>, idx: seq<Entry>, used: set<Handle>, packs: map<Id, PackInfo>)
    requires PacksClean(IndexSizes(idx), files)
    requires InfosFrom(packs, idx, used, Selected(idx, used))
    ensures forall f :: f in files ==> !Mismatch(packs, f)
    ensures packs.Keys <= Listed(files) && Needed(files, packs) == {}
  {
    forall p | p in packs
      ensures p in Listed(files)
    {
      assert !PackFault(IndexSizes(idx), files, Missing(p));
    }
    forall f | f in files
      ensures !Mismatch(packs, f)
    {
      if f.id in packs {
        PackSizeIndependentOfMarks(idx, used, Selected(idx, used), f.id);
        assert File(f.id, f.size) == f;
        assert !PackFault(IndexSizes(idx), files, WrongSize(f.id, f.size));
      }
    }
  }

  predicate OnlyOrphans(errs: seq<PackError>) {
    forall e :: e in errs ==> e.Orphaned?
  }

  /** A check followed by a prune's planning: without findings, except orphaned packs, planning
      succeeds and forgets no pack. */
  method CheckAndPlan(f: Forest, roots: seq<Id>, idx: seq<Entry>, files: seq<File>, connections: nat, cfg: Config,
                      opts: Options)
    returns (trees: seq<TreeError>, packErrs: seq<PackError>, r: PlanResult)
    requires ListedOnce(files) && LoadedThrough(f, Handles(idx))
    ensures trees == [] <==> Sound(f, roots, Handles(idx))
    ensures forall e :: e in packErrs <==> PackFault(IndexSizes(idx), files, e)
    ensures trees == [] && OnlyOrphans(packErrs) && connections >= 2 && !(cfg.version < 2 && opts.repackUncompressed)
        ==> r.Planned? && r.plan.ignore == {}
  {
    hide Sound, Used, Settled, AllLoad;
    var sizes := PackSizes(idx, false);
    assert sizes == IndexSizes(idx);
    packErrs := CheckPacks(sizes, files);
    var refs;
    trees, refs := Structure(f, roots, Handles(idx), false);
    var ok, used := FindUsedBlobs(f, roots, {});
    NothingMarked(f);
    ghost var packs;
    var stats;
    ghost var order;
    r, stats, packs, order := PlanPrune(connections, cfg, opts, idx, files, if ok then Some(used) else None);
    if trees == [] && OnlyOrphans(packErrs) {
      SoundMeansIndexed(f, roots, Handles(idx));
      assert ok && used <= Handles(idx);
      if r.Planned? {
        CleanPacksFit(files, idx, used, packs);
      } else {
        assert r == Failed(r.error);
        assert connections >= 2 ==> r.error != TooFewConnections;
        assert !(cfg.version < 2 && opts.repackUncompressed) ==> r.error != VersionTooOld;
        assert r.error != UsedBlobsUnknown;
        assert r.error != ErrIndexIncomplete;
        if r.error in {ErrSizeNotMatching, ErrPacksMissing} {
          CleanPacksFit(files, idx, used, packs);
        }
      }
    }
  }

  lemma NothingMarked(f: Forest)
    ensures Settled(f, {})
  {
    assert TreeIds({}) == {};
  }
}
