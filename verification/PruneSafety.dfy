/** Planning and carrying out a prune together: no used blob is ever lost. */
module PruneSafety {
  import opened Repository
  import opened PruneSelection
  import opened PruneDecision
  import opened PrunePlanning
  import Repack
  import opened IndexFiles
  import IndexRewrite
  import Exec = PruneExecute

  /** The in-memory index is what the index files say, and the listing is what is on disk. */
  ghost predicate Mirrors(f: Snapshot, idx: seq<Entry>, files: seq<File>) {
    && Listed(files) == f.packs.Keys
    && (forall e :: e in idx ==> IndexRewrite.Lists(f, f.indexes.Keys, Location(e.h, e.pack)))
    && (forall l :: IndexRewrite.Lists(f, f.indexes.Keys, l) ==> exists e :: e in idx && e.h == l.h && e.pack == l.pack)
  }

  /** The blobs of the packs to repack, pack by pack (ListPacksFromIndex). */
  method ListPacks(idx: seq<Entry>, packs: set<Id>) returns (r: seq<seq<Handle>>)
    ensures |r| == |packs|
    ensures Repack.Contents(r) == set e | e in idx && e.pack in packs :: e.h
  {
    r := [];
    var todo := packs;
    while todo != {}
      invariant todo <= packs && |r| + |todo| == |packs|
      invariant Repack.Contents(r) == set e | e in idx && e.pack in packs && e.pack !in todo :: e.h
    {
      var p :| p in todo;
      var blobs := BlobsOf(idx, p);
      ContentsSnoc(r, blobs);
      r := r + [blobs];
      todo := todo - {p};
    }
  }

  lemma ContentsSnoc(r: seq<seq<Handle>>, blobs: seq<Handle>)
    ensures Repack.Contents(r + [blobs]) == Repack.Contents(r) + set h | h in blobs
  {
    assert blobs in r + [blobs];
    assert forall p :: p in r ==> p in r + [blobs];
  }

  function BlobsOf(idx: seq<Entry>, p: Id): (r: seq<Handle>)
    ensures forall h :: h in r <==> exists e :: e in idx && e.pack == p && e.h == h
  {
    if idx == [] then []
    else
      var n := |idx| - 1;
      assert idx == idx[..n] + [idx[n]];
      BlobsOf(idx[..n], p) + if idx[n].pack == p then [idx[n].h] else []
  }

  /** Planning may end with this plan. */
  ghost predicate DecidedAs(cfg: Config, opts: Options, idx: seq<Entry>, files: seq<File>, used: set<Handle>,
                            plan: Plan, packs: map<Id, PackInfo>, d: DecideResult, order: seq<Candidate>)
  {
    && SelectionFor(idx, used, packs, Selected(idx, used)) && d.Decided? && d.plan == plan
    && DecidedPlan(cfg, opts, files, packs, StatsOf(idx, used, Selected(idx, used), true), d, order)
    && DecidedStats(idx, Selected(idx, used), d)
  }

  ghost predicate MayPlan(cfg: Config, opts: Options, idx: seq<Entry>, files: seq<File>, used: set<Handle>,
                          plan: Plan)
  {
    exists packs, d, order :: DecidedAs(cfg, opts, idx, files, used, plan, packs, d, order)
  }

  /** The packs that do not stay. */
  function Doomed(plan: Plan): set<Id> {
    plan.removeFirst + plan.remove + plan.repack + plan.ignore
  }

  /** The used blobs are found, and packs that stay vouch for those that are not repacked. */
  ghost predicate Recoverable(f: Snapshot, idx: seq<Entry>, used: set<Handle>, plan: Plan) {
    Safe(f, used) && Sure(f, Doomed(plan), used - KeepBlobs(idx, used, plan))
  }

  ghost predicate AlwaysRecoverable(f: Snapshot, cfg: Config, opts: Options, idx: seq<Entry>, files: seq<File>,
                                    used: set<Handle>)
  {
    forall plan :: MayPlan(cfg, opts, idx, files, used, plan) ==> Recoverable(f, idx, used, plan)
  }

  // ----- A condition that does not depend on the plan -----

  /** No used blob is indexed in a missing pack, listed packs hold the used blobs that the index
      says they hold, and index files that list the same pack agree on them. */
  ghost predicate Orderly(f: Snapshot, idx: seq<Entry>, used: set<Handle>) {
    forall e :: e in idx && e.h in used ==> Holds(f, Location(e.h, e.pack)) && Agreed(f, Location(e.h, e.pack))
  }

  lemma EntryFound(f: Snapshot, idx: seq<Entry>, files: seq<File>, used: set<Handle>, e: Entry, doomed: set<Id>)
    requires Mirrors(f, idx, files) && Orderly(f, idx, used) && e in idx && e.h in used && e.pack !in doomed
    ensures FoundSurely(f, doomed, e.h)
  {
    var l := Location(e.h, e.pack);
    assert IndexRewrite.Lists(f, f.indexes.Keys, l);
    var i :| i in f.indexes.Keys && i in f.indexes && l in f.indexes[i];
    AgreedIsFoundSurely(f, doomed, i, l);
  }

  /** A blob that is not to be kept has a copy in a pack that stays. */
  lemma StayingCopy(f: Snapshot, idx: seq<Entry>, files: seq<File>, used: set<Handle>, packs: set<Id>,
                    r: PlanResult, h: Handle)
    requires Mirrors(f, idx, files) && Orderly(f, idx, used) && h in used
    requires r.Planned? && Survives(idx, r, h) && h !in r.keepBlobs
    requires packs == Packs(idx) && r.plan.ignore == packs - Listed(files) && r.plan.removeFirst !! packs
    ensures FoundSurely(f, Doomed(r.plan), h)
  {
    var e :| e in idx && e.h == h && e.pack !in r.plan.remove + r.plan.repack + r.plan.ignore;
    assert e.pack in Packs(idx);
    EntryFound(f, idx, files, used, e, Doomed(r.plan));
  }

  /** In an orderly repository every plan there may be leaves the used blobs recoverable. */
  lemma OrderlyIsRecoverable(f: Snapshot, cfg: Config, opts: Options, idx: seq<Entry>, files: seq<File>,
                             used: set<Handle>, plan: Plan)
    requires Mirrors(f, idx, files) && Orderly(f, idx, used) && MayPlan(cfg, opts, idx, files, used, plan)
    ensures Recoverable(f, idx, used, plan)
  {
    hide Mirrors, Orderly, FoundSurely, Survives, KeepBlobs, SelectionFor, Safe, DecidedStats;
    var packs, d, order :| DecidedAs(cfg, opts, idx, files, used, plan, packs, d, order);
    var r, marks := Planned(plan, KeepBlobs(idx, used, plan)), Selected(idx, used);
    InMissingPacks(f, idx, files, used);
    NothingMissingNothingLost(cfg, opts, files, idx, used, packs, marks, r);
    PlanPartitions(cfg, opts, packs, files, plan);
    PacksOfSelection(idx, used, packs, marks);
    forall h | h in used
      ensures FoundSurely(f, {}, h)
    {
      var e := PickedCopy(cfg, opts, files, idx, used, packs, marks, plan, h);
      EntryFound(f, idx, files, used, e, {});
    }
    SureIsSecured(f, {}, used);
    SecuredIsSafe(f, f.indexes.Keys, {}, used);
    forall h | h in used - r.keepBlobs
      ensures FoundSurely(f, Doomed(plan), h)
    {
      StayingCopy(f, idx, files, used, packs.Keys, r, h);
    }
  }

  lemma InMissingPacks(f: Snapshot, idx: seq<Entry>, files: seq<File>, used: set<Handle>)
    requires Mirrors(f, idx, files) && Orderly(f, idx, used)
    ensures forall e :: e in idx && e.h in used ==> e.pack in Listed(files)
  {
  }

  lemma PacksOfSelection(idx: seq<Entry>, used: set<Handle>, packs: map<Id, PackInfo>, marks: seq<bool>)
    requires SelectionFor(idx, used, packs, marks)
    ensures packs.Keys == Packs(idx)
  {
  }

  // ----- Planning and executing -----

  /** A plan can be carried out exactly if it leaves the used blobs recoverable. */
  lemma PlannedIsReadyIff(cfg: Config, opts: Options, f: Snapshot, idx: seq<Entry>, files: seq<File>,
                          used: set<Handle>, packs: map<Id, PackInfo>, marks: seq<bool>, plan: Plan,
                          packBlobs: seq<seq<Handle>>)
    requires Mirrors(f, idx, files) && SelectionFor(idx, used, packs, marks)
    requires PlanFits(cfg, opts, packs, files, plan)
    requires Repack.Contents(packBlobs) == set e | e in idx && e.pack in plan.repack :: e.h
    ensures Recoverable(f, idx, used, plan) <==>
      Exec.Ready(f, plan.removeFirst, plan.remove, plan.repack, plan.ignore, KeepBlobs(idx, used, plan),
                 packBlobs, used)
  {
    hide SelectionFor, Mirrors, Found, FoundSurely;
    var keep := KeepBlobs(idx, used, plan);
    PlanPartitions(cfg, opts, packs, files, plan);
    PacksOfSelection(idx, used, packs, marks);
    UnindexedDoNotMatter(f, idx, files, used, plan.removeFirst);
    forall h | h in keep
      ensures h in Repack.Contents(packBlobs)
    {
      KeepBlobsAreInRepackedPacks(cfg, opts, files, idx, used, packs, marks, plan, h);
    }
  }

  /** Blobs are found without the packs that are not indexed, if they are found at all. */
  lemma UnindexedDoNotMatter(f: Snapshot, idx: seq<Entry>, files: seq<File>, used: set<Handle>, packs: set<Id>)
    requires Mirrors(f, idx, files) && packs !! Packs(idx)
    ensures Safe(f, used) <==> Secured(f, f.indexes.Keys, packs, used)
  {
    if Secured(f, f.indexes.Keys, packs, used) {
      SecuredIsSafe(f, f.indexes.Keys, packs, used);
    }
    if Safe(f, used) {
      forall h | h in used
        ensures Found(f, f.indexes.Keys, packs, h)
      {
        assert Resolves(f, h);
        var i, l :| i in f.indexes.Keys && i in f.indexes && l in f.indexes[i] && l.h == h && l.pack !in {} &&
          Holds(f, l);
        assert IndexRewrite.Lists(f, f.indexes.Keys, l);
        var e :| e in idx && e.h == l.h && e.pack == l.pack;
        assert e.pack in Packs(idx);
      }
    }
  }

  /** A plan leaves the used blobs recoverable exactly if those that are not repacked are still
      found after rewriting the index without the packs that go, in every order. */
  lemma RecoverableIff(f: Snapshot, idx: seq<Entry>, used: set<Handle>, plan: Plan)
    requires Safe(f, used)
    ensures Recoverable(f, idx, used, plan) <==>
      forall h, order :: h in used - KeepBlobs(idx, used, plan) && IndexRewrite.IsOrder(f, order) ==>
        IndexRewrite.FoundInOrder(f, order, Doomed(plan), h)
  {
    hide FoundSurely, Safe, KeepBlobs, Doomed, IndexRewrite.IsOrder, IndexRewrite.FoundInOrder;
    forall h | h in used - KeepBlobs(idx, used, plan)
      ensures FoundSurely(f, Doomed(plan), h) <==> forall order ::
        IndexRewrite.IsOrder(f, order) ==> IndexRewrite.FoundInOrder(f, order, Doomed(plan), h)
    {
      IndexRewrite.FoundInEveryOrderIff(f, Doomed(plan), h);
    }
  }

  /** The packs that are not needed are gone, except those that could not be deleted. */
  ghost predicate Gone(f: Snapshot, plan: Plan, failed: set<Id>) {
    forall p :: p in plan.removeFirst + plan.remove + plan.repack ==> p in failed || p !in f.packs
  }

  /** Why planning may fail. */
  ghost predicate Cause(error: PlanError, connections: nat, cfg: Config, opts: Options, idx: seq<Entry>,
                        files: seq<File>, used: set<Handle>, packs: map<Id, PackInfo>)
  {
    match error
    case TooFewConnections => connections < 2
    case VersionTooOld => cfg.version < 2 && opts.repackUncompressed
    case UsedBlobsUnknown => false
    case ErrIndexIncomplete => !(used <= Handles(idx))
    case ErrSizeNotMatching =>
      SelectionFor(idx, used, packs, Selected(idx, used)) && exists f :: f in files && Mismatch(packs, f)
    case ErrPacksMissing => SelectionFor(idx, used, packs, Selected(idx, used)) && Needed(files, packs) != {}
  }

  /** The prune command after the used blobs were found: plan, then execute.  Whatever happens,
      in every state of the disk on the way each used blob is listed by an index file in a
      pack that is there and holds it.  All this provided that the plan leaves the used blobs
      recoverable, as every plan does in an orderly repository. */
  method Prune(disk: Disk, connections: nat, cfg: Config, opts: Options, idx: seq<Entry>, files: seq<File>,
               used: set<Handle>, schedule: seq<Repack.Step>)
    returns (r: PlanResult, out: Exec.Outcome, failed: set<Id>, ghost packs: map<Id, PackInfo>)
    requires ListedOnce(files) && Mirrors(disk.files, idx, files)
    requires AlwaysRecoverable(disk.files, cfg, opts, idx, files, used)
    modifies disk
    ensures old(disk.history) <= disk.history && SafeSince(disk.history, |old(disk.history)|, used)
    ensures r.Failed? ==>
      disk.history == old(disk.history) && Cause(r.error, connections, cfg, opts, idx, files, used, packs)
    ensures out != Exec.BlobsNotRepacked
    ensures r.Planned? && out == Exec.Completed ==>
      && Secured(disk.files, disk.files.indexes.Keys, r.plan.ignore + r.plan.remove + r.plan.repack, used)
      && Gone(disk.files, r.plan, failed)
  {
    hide Mirrors, Recoverable, DecidedPlan, DecidedStats, SelectionFor, Secured, SafeSince;
    failed := {};
    var stats;
    ghost var order;
    r, stats, packs, order := PlanPrune(connections, cfg, opts, idx, files, Some(used));
    out := Exec.Cancelled;
    if r.Failed? {
      NothingHappened(disk.history, used);
      assert r == Failed(r.error);
      return;
    }
    assert DecidedAs(cfg, opts, idx, files, used, r.plan, packs, stats.value, order);
    FitsIfDecided(cfg, opts, idx, files, used, r.plan, packs, stats.value, order);
    out, failed := CarryOut(disk, cfg, opts, idx, files, used, packs, r, connections - 1, schedule);
  }

  lemma NothingHappened(history: seq<Snapshot>, used: set<Handle>)
    ensures SafeSince(history, |history|, used)
  {
  }

  lemma FitsIfDecided(cfg: Config, opts: Options, idx: seq<Entry>, files: seq<File>, used: set<Handle>, plan: Plan,
                      packs: map<Id, PackInfo>, d: DecideResult, order: seq<Candidate>)
    requires DecidedAs(cfg, opts, idx, files, used, plan, packs, d, order)
    ensures PlanFits(cfg, opts, packs, files, plan)
  {
  }

  method CarryOut(disk: Disk, ghost cfg: Config, ghost opts: Options, idx: seq<Entry>, ghost files: seq<File>,
                  ghost used: set<Handle>, ghost packs: map<Id, PackInfo>, r: PlanResult, workers: nat,
                  schedule: seq<Repack.Step>)
    returns (out: Exec.Outcome, failed: set<Id>)
    requires Mirrors(disk.files, idx, files) && SelectionFor(idx, used, packs, Selected(idx, used))
    requires r.Planned? && PlanFits(cfg, opts, packs, files, r.plan) && r.keepBlobs == KeepBlobs(idx, used, r.plan)
    requires Recoverable(disk.files, idx, used, r.plan)
    modifies disk
    ensures old(disk.history) <= disk.history && SafeSince(disk.history, |old(disk.history)|, used)
    ensures out != Exec.BlobsNotRepacked
    ensures out == Exec.Completed ==>
      && Secured(disk.files, disk.files.indexes.Keys, r.plan.ignore + r.plan.remove + r.plan.repack, used)
      && Gone(disk.files, r.plan, failed)
  {
    hide Mirrors, SelectionFor, PlanFits, Recoverable, Secured, SafeSince, Exec.Ready;
    var packBlobs := ListPacks(idx, r.plan.repack);
    PlannedIsReadyIff(cfg, opts, disk.files, idx, files, used, packs, Selected(idx, used), r.plan, packBlobs);
    var plan := new Exec.PrunePlan(r.plan.removeFirst, r.plan.remove, r.plan.repack, r.plan.ignore, r.keepBlobs);
    out, failed := plan.Execute(disk, packBlobs, workers, schedule, used);
    assert r.plan.ignore + (r.plan.remove + r.plan.repack) == r.plan.ignore + r.plan.remove + r.plan.repack;
  }
}
