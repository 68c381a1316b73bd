/** A check followed by a prune: what a check without findings means for every state of the disk
    while the repository is pruned. */
module CheckedPrune {
  import opened Repository
  import opened Trees
  import opened TreeWalk
  import opened PruneSelection
  import opened PruneDecision
  import opened PrunePlanning
  import opened IndexFiles
  import opened PruneSafety
  import opened Checker
  import IndexRewrite
  import Repack
  import Exec = PruneExecute

  // ----- Packs that are listed more than once -----

  function Listers(indexes: map<Id, set<Location>>, todo: set<Id>, p: Id): set<Id> {
    set i | i in indexes && i !in todo && p in PacksIn(indexes[i])
  }

  /** Two of the index files list the pack (a hint of LoadIndex). */
  ghost predicate ListedTwice(indexes: map<Id, set<Location>>, p: Id) {
    exists i, j :: i in indexes && j in indexes && i != j && p in PacksIn(indexes[i]) && p in PacksIn(indexes[j])
  }

  /** The packs that more than one index file lists. */
  method DuplicatePacks(indexes: map<Id, set<Location>>) returns (hints: set<Id>)
    ensures forall p :: p in hints <==> ListedTwice(indexes, p)
  {
    var packToIndex: map<Id, set<Id>> := map[];
    var todo := indexes.Keys;
    while todo != {}
      invariant todo <= indexes.Keys
      invariant forall p :: p in packToIndex <==> Listers(indexes, todo, p) != {}
      invariant forall p :: p in packToIndex ==> packToIndex[p] == Listers(indexes, todo, p)
    {
      var id :| id in todo;
      ghost var before := packToIndex;
      packToIndex := AddLister(packToIndex, id, indexes[id]);
      forall p
        ensures Listers(indexes, todo - {id}, p)
          == Listers(indexes, todo, p) + if p in PacksIn(indexes[id]) then {id} else {}
      {
      }
      todo := todo - {id};
    }
    hints := set p | p in packToIndex && |packToIndex[p]| > 1;
    forall p
      ensures |Listers(indexes, {}, p)| > 1 <==> ListedTwice(indexes, p)
    {
      MoreThanOne(indexes, p);
    }
  }

  method AddLister(packToIndex: map<Id, set<Id>>, id: Id, locations: set<Location>) returns (r: map<Id, set<Id>>)
    ensures r.Keys == packToIndex.Keys + PacksIn(locations)
    ensures forall p :: p in r ==>
      r[p] == (if p in packToIndex then packToIndex[p] else {}) + if p in PacksIn(locations) then {id} else {}
  {
    r := packToIndex;
    var todo := locations;
    while todo != {}
      invariant todo <= locations
      invariant r.Keys == packToIndex.Keys + PacksIn(locations - todo)
      invariant forall p :: p in r ==>
        r[p] == (if p in packToIndex then packToIndex[p] else {}) + if p in PacksIn(locations - todo) then {id} else {}
    {
      var l :| l in todo;
      assert PacksIn(locations - (todo - {l})) == PacksIn(locations - todo) + {l.pack} by {
        assert locations - (todo - {l}) == locations - todo + {l};
      }
      if l.pack !in r {
        r := r[l.pack := {}];
      }
      r := r[l.pack := r[l.pack] + {id}];
      todo := todo - {l};
    }
    assert locations - todo == locations;
  }

  lemma MoreThanOne(indexes: map<Id, set<Location>>, p: Id)
    ensures |Listers(indexes, {}, p)| > 1 <==> ListedTwice(indexes, p)
  {
    var ids := Listers(indexes, {}, p);
    if ListedTwice(indexes, p) {
      var i, j :| i in indexes && j in indexes && i != j && p in PacksIn(indexes[i]) && p in PacksIn(indexes[j]);
      assert ids == {i, j} + (ids - {i, j});
    }
    if |ids| > 1 {
      var i :| i in ids;
      assert |ids - {i}| > 0;
      var j :| j in ids - {i};
      assert i in indexes && j in indexes;
    }
  }

  /** Without such packs the index files agree on everything. */
  lemma NoDuplicatesAgreed(f: Snapshot, l: Location)
    requires IndexRewrite.Lists(f, f.indexes.Keys, l) && !ListedTwice(f.indexes, l.pack)
    ensures Agreed(f, l)
  {
  }

  // ----- Check and prune -----

  /** No pack lacks a blob that the index says is in it. */
  ghost predicate Intact(f: Snapshot, idx: seq<Entry>) {
    forall e :: e in idx && e.pack in f.packs ==> e.h in f.packs[e.pack]
  }

  lemma CleanIsOrderly(f: Snapshot, idx: seq<Entry>, files: seq<File>, used: set<Handle>)
    requires Mirrors(f, idx, files) && Intact(f, idx) && PacksClean(IndexSizes(idx), files)
    requires forall p :: !ListedTwice(f.indexes, p)
    ensures Orderly(f, idx, used)
  {
    forall e | e in idx
      ensures Holds(f, Location(e.h, e.pack)) && Agreed(f, Location(e.h, e.pack))
    {
      assert IndexRewrite.Lists(f, f.indexes.Keys, Location(e.h, e.pack));
      NoDuplicatesAgreed(f, Location(e.h, e.pack));
      assert e.pack in IndexSizes(idx);
      assert !PackFault(IndexSizes(idx), files, Missing(e.pack));
    }
  }

  /** Every blob that the snapshots need can be found. */
  ghost predicate Restorable(f: Snapshot, forest: Forest, roots: seq<Id>) {
    forall h :: Used(forest, roots, h) ==> Resolves(f, h)
  }

  ghost predicate RestorableSince(history: seq<Snapshot>, n: nat, forest: Forest, roots: seq<Id>) {
    n <= |history| && forall i :: n <= i < |history| ==> Restorable(history[i], forest, roots)
  }

  lemma OrderlyIsSafe(f: Snapshot, idx: seq<Entry>, files: seq<File>, used: set<Handle>)
    requires Mirrors(f, idx, files) && Orderly(f, idx, used) && used <= Handles(idx)
    ensures Safe(f, used)
  {
    hide FoundSurely, Mirrors, Orderly;
    forall h | h in used
      ensures FoundSurely(f, {}, h)
    {
      var e :| e in idx && e.h == h;
      EntryFound(f, idx, files, used, e, {});
    }
    SureIsSecured(f, {}, used);
    SecuredIsSafe(f, f.indexes.Keys, {}, used);
  }

  lemma SafeNow(f: Snapshot, used: set<Handle>, forest: Forest, roots: seq<Id>)
    requires Safe(f, used) && forall h :: Used(forest, roots, h) ==> h in used
    ensures Restorable(f, forest, roots)
  {
  }

  lemma SafeIsRestorable(history: seq<Snapshot>, n: nat, used: set<Handle>, forest: Forest, roots: seq<Id>)
    requires SafeSince(history, n, used) && forall h :: Used(forest, roots, h) ==> h in used
    ensures RestorableSince(history, n, forest, roots)
  {
  }

  /** What the checks look at before pruning: index files, packs, and the trees of the snapshots. */
  method Check(forest: Forest, roots: seq<Id>, indexes: map<Id, set<Location>>, idx: seq<Entry>, files: seq<File>)
    returns (trees: seq<TreeError>, packErrs: seq<PackError>, hints: set<Id>)
    requires ListedOnce(files)
    ensures trees == [] <==> Sound(forest, roots, Handles(idx))
    ensures forall e :: e in packErrs <==> PackFault(IndexSizes(idx), files, e)
    ensures forall p :: p in hints <==> ListedTwice(indexes, p)
  {
    hide Sound, ListedTwice;
    hints := DuplicatePacks(indexes);
    var sizes := PackSizes(idx, false);
    assert sizes == IndexSizes(idx);
    packErrs := CheckPacks(sizes, files);
    var refs;
    trees, refs := Structure(forest, roots, Handles(idx), false);
  }

  ghost predicate NoFindings(forest: Forest, roots: seq<Id>, f: Snapshot, idx: seq<Entry>, files: seq<File>) {
    && Sound(forest, roots, Handles(idx)) && PacksClean(IndexSizes(idx), files)
    && forall p :: !ListedTwice(f.indexes, p)
  }

  /** Pruning a repository in which the checks found nothing. */
  method PruneClean(forest: Forest, roots: seq<Id>, disk: Disk, idx: seq<Entry>, files: seq<File>, connections: nat,
                    cfg: Config, opts: Options, schedule: seq<Repack.Step>)
    returns (r: PlanResult, out: Exec.Outcome)
    requires ListedOnce(files) && LoadedThrough(forest, Handles(idx))
    requires Mirrors(disk.files, idx, files) && Intact(disk.files, idx)
    requires NoFindings(forest, roots, disk.files, idx, files)
    modifies disk
    ensures old(disk.history) <= disk.history && Restorable(old(disk.files), forest, roots)
    ensures RestorableSince(disk.history, |old(disk.history)|, forest, roots)
    ensures connections >= 2 && !(cfg.version < 2 && opts.repackUncompressed) ==> r.Planned?
  {
    hide Mirrors, Orderly, Sound, Used, Settled, AllLoad, Recoverable, MayPlan, Safe, Intact, SelectionFor;
    var ok, used := FindUsedBlobs(forest, roots, {});
    NothingMarked(forest);
    SoundMeansIndexed(forest, roots, Handles(idx));
    ghost var f0 := disk.files;
    CleanIsOrderly(f0, idx, files, used);
    OrderlyIsSafe(f0, idx, files, used);
    SafeNow(f0, used, forest, roots);
    forall plan | MayPlan(cfg, opts, idx, files, used, plan)
      ensures Recoverable(f0, idx, used, plan)
    {
      OrderlyIsRecoverable(f0, cfg, opts, idx, files, used, plan);
    }
    var failed;
    ghost var packs;
    r, out, failed, packs := Prune(disk, connections, cfg, opts, idx, files, used, schedule);
    SafeIsRestorable(disk.history, |old(disk.history)|, used, forest, roots);
    if r.Failed? {
      OtherCause(r.error, connections, cfg, opts, idx, files, used, packs);
    }
  }

  /** With clean packs and all used blobs indexed, planning only fails for its options. */
  lemma OtherCause(error: PlanError, connections: nat, cfg: Config, opts: Options, idx: seq<Entry>,
                   files: seq<File>, used: set<Handle>, packs: map<Id, PackInfo>)
    requires PacksClean(IndexSizes(idx), files) && used <= Handles(idx)
    requires Cause(error, connections, cfg, opts, idx, files, used, packs)
    ensures connections < 2 || (cfg.version < 2 && opts.repackUncompressed)
  {
    if error in {ErrSizeNotMatching, ErrPacksMissing} {
      CleanPacksFit(files, idx, used, packs);
    }
  }

  /** A check, and a prune if it finds nothing but orphaned packs.  From the first state of the
      disk to the last, whatever happens, everything that the snapshots need can be found. */
  method CheckAndPrune(forest: Forest, roots: seq<Id>, disk: Disk, idx: seq<Entry>, files: seq<File>, connections: nat,
                       cfg: Config, opts: Options, schedule: seq<Repack.Step>)
    returns (trees: seq<TreeError>, packErrs: seq<PackError>, hints: set<Id>, r: Option<PlanResult>, out: Exec.Outcome)
    requires ListedOnce(files) && LoadedThrough(forest, Handles(idx))
    requires Mirrors(disk.files, idx, files) && Intact(disk.files, idx)
    modifies disk
    ensures r.Some? <==> trees == [] && OnlyOrphans(packErrs) && hints == {}
    ensures trees == [] <==> Sound(forest, roots, Handles(idx))
    ensures forall e :: e in packErrs <==> PackFault(IndexSizes(idx), files, e)
    ensures forall p :: p in hints <==> ListedTwice(old(disk.files).indexes, p)
    ensures r.None? ==> disk.history == old(disk.history)
    ensures old(disk.history) <= disk.history
    ensures r.Some? ==> Restorable(old(disk.files), forest, roots)
    ensures r.Some? ==> RestorableSince(disk.history, |old(disk.history)|, forest, roots)
    ensures r.Some? && connections >= 2 && !(cfg.version < 2 && opts.repackUncompressed) ==> r.value.Planned?
  {
    hide Mirrors, Sound, Restorable, Intact, ListedTwice, LoadedThrough;
    r, out := None, Exec.Cancelled;
    trees, packErrs, hints := Check(forest, roots, disk.files.indexes, idx, files);
    if trees == [] && OnlyOrphans(packErrs) && hints == {} {
      var result;
      result, out := PruneClean(forest, roots, disk, idx, files, connections, cfg, opts, schedule);
      r := Some(result);
    }
  }
}
