/** Planning a prune (PlanPrune): which packs go, which are repacked, and which blobs the
    repacking has to keep. */
module PrunePlanning {
  import opened Repository
  import opened PruneSelection
  import opened PruneDecision

  datatype PlanError =
    | TooFewConnections | VersionTooOld | UsedBlobsUnknown
    | ErrIndexIncomplete | ErrSizeNotMatching | ErrPacksMissing

  datatype PlanResult =
    | Planned(plan: Plan, keepBlobs: set<Handle>)
    | Failed(error: PlanError)

  /** A copy in a pack that neither goes nor is repacked nor is missing. */
  ghost predicate KeptCopy(idx: seq<Entry>, plan: Plan, h: Handle) {
    exists e :: e in idx && e.h == h && e.pack !in plan.remove + plan.repack + plan.ignore
  }

  ghost predicate CopyIn(idx: seq<Entry>, packs: set<Id>, h: Handle) {
    exists e :: e in idx && e.h == h && e.pack in packs
  }

  /** A blob outlives the prune if a copy stays where it is or is saved again. */
  ghost predicate Survives(idx: seq<Entry>, r: PlanResult, h: Handle)
    requires r.Planned?
  {
    KeptCopy(idx, r.plan, h) || (h in r.keepBlobs && CopyIn(idx, r.plan.repack, h))
  }

  /** The blobs to keep: those with every copy in a pack that goes or is repacked.  A copy in
      a missing pack counts as a copy elsewhere. */
  ghost function KeepBlobs(idx: seq<Entry>, used: set<Handle>, plan: Plan): set<Handle> {
    if plan.repack == {} then {}
    else set h | h in used && forall e :: e in idx && e.h == h ==> e.pack in plan.remove + plan.repack
  }

  method FilterKeepBlobs(idx: seq<Entry>, used: set<Handle>, plan: Plan) returns (keep: set<Handle>)
    ensures keep == KeepBlobs(idx, used, plan)
  {
    if plan.repack == {} {
      return {};
    }
    keep := used;
    for i := 0 to |idx|
      invariant keep == set h | h in used && forall e :: e in idx[..i] && e.h == h ==>
        e.pack in plan.remove + plan.repack
    {
      assert idx[..i + 1] == idx[..i] + [idx[i]];
      if !(idx[i].pack in plan.remove || idx[i].pack in plan.repack) {
        keep := keep - {idx[i].h};
      }
    }
    assert idx[..|idx|] == idx;
  }

  /** A picked entry makes its pack a needed one. */
  lemma PickedPackIsNeeded(idx: seq<Entry>, used: set<Handle>, marks: seq<bool>, k: nat)
    requires |marks| == |idx| && k < |idx| && marks[k]
    ensures InfoOf(idx, used, marks, idx[k].pack).usedBlobs > 0
  {
    InfoAt(idx, used, marks, idx[k].pack);
    TotalAtLeast(UsedBlobs(idx[k].pack), idx, marks, k);
  }

  ghost predicate SelectionFor(idx: seq<Entry>, used: set<Handle>, packs: map<Id, PackInfo>, marks: seq<bool>) {
    InfosFrom(packs, idx, used, marks) && ExactlyOneCopy(idx, used, marks)
  }

  /** Every used blob has a copy in a listed pack that is kept or repacked. */
  lemma PickedCopy(cfg: Config, opts: Options, files: seq<File>, idx: seq<Entry>, used: set<Handle>,
                   packs: map<Id, PackInfo>, marks: seq<bool>, plan: Plan, h: Handle) returns (e: Entry)
    requires SelectionFor(idx, used, packs, marks) && PlanFits(cfg, opts, packs, files, plan) && h in used
    ensures e in idx && e.h == h && e.pack in Listed(files) && e.pack !in plan.remove + plan.ignore
  {
    var k := TotalWitness(Picked(h), idx, marks);
    PickedPackIsNeeded(idx, used, marks, k);
    e := idx[k];
  }

  /** A used blob survives the plan exactly when a copy of it is kept in place or none of its
      copies is indexed in a missing pack. */
  lemma SurvivesIff(cfg: Config, opts: Options, files: seq<File>, idx: seq<Entry>, used: set<Handle>,
                    packs: map<Id, PackInfo>, marks: seq<bool>, r: PlanResult, h: Handle)
    requires r.Planned? && r.keepBlobs == KeepBlobs(idx, used, r.plan)
    requires SelectionFor(idx, used, packs, marks) && PlanFits(cfg, opts, packs, files, r.plan) && h in used
    ensures Survives(idx, r, h) <==> KeptCopy(idx, r.plan, h) || !CopyIn(idx, r.plan.ignore, h)
  {
    var e := PickedCopy(cfg, opts, files, idx, used, packs, marks, r.plan, h);
    PlanPartitions(cfg, opts, packs, files, r.plan);
    if !KeptCopy(idx, r.plan, h) {
      assert e.pack in r.plan.repack;
      if !CopyIn(idx, r.plan.ignore, h) {
        assert h in r.keepBlobs;
      }
    }
  }

  /** With no used blob indexed in a missing pack, every used blob survives. */
  lemma NothingMissingNothingLost(cfg: Config, opts: Options, files: seq<File>, idx: seq<Entry>, used: set<Handle>,
                                  packs: map<Id, PackInfo>, marks: seq<bool>, r: PlanResult)
    requires r.Planned? && r.keepBlobs == KeepBlobs(idx, used, r.plan)
    requires SelectionFor(idx, used, packs, marks) && PlanFits(cfg, opts, packs, files, r.plan)
    requires forall e :: e in idx && e.h in used ==> e.pack in Listed(files)
    ensures forall h :: h in used ==> Survives(idx, r, h)
  {
    forall h | h in used
      ensures Survives(idx, r, h)
    {
      SurvivesIff(cfg, opts, files, idx, used, packs, marks, r, h);
    }
  }

  /** Every blob to keep has a copy in a repacked pack and none in a pack that stays. */
  lemma KeepBlobsAreInRepackedPacks(cfg: Config, opts: Options, files: seq<File>, idx: seq<Entry>, used: set<Handle>,
                                    packs: map<Id, PackInfo>, marks: seq<bool>, plan: Plan, h: Handle)
    requires SelectionFor(idx, used, packs, marks) && PlanFits(cfg, opts, packs, files, plan)
    requires h in KeepBlobs(idx, used, plan)
    ensures CopyIn(idx, plan.repack, h) && !KeptCopy(idx, plan, h) && h in used
  {
    var e := PickedCopy(cfg, opts, files, idx, used, packs, marks, plan, h);
  }

  /** Plans a prune.  `used` is what the traversal of the snapshots found, if it succeeded. */
  method PlanPrune(connections: nat, cfg: Config, opts: Options, idx: seq<Entry>, files: seq<File>,
                   used: Option<set<Handle>>)
    returns (r: PlanResult, stats: Option<DecideResult>, ghost packs: map<Id, PackInfo>, ghost order: seq<Candidate>)
    requires ListedOnce(files)
    ensures r == Failed(TooFewConnections) <==> connections < 2
    ensures r == Failed(VersionTooOld) <==> connections >= 2 && cfg.version < 2 && opts.repackUncompressed
    ensures r == Failed(UsedBlobsUnknown) <==>
      connections >= 2 && !(cfg.version < 2 && opts.repackUncompressed) && used.None?
    ensures r == Failed(ErrIndexIncomplete) <==>
      connections >= 2 && !(cfg.version < 2 && opts.repackUncompressed) && used.Some? && !(used.value <= Handles(idx))
    ensures r.Planned? || r.error in {ErrSizeNotMatching, ErrPacksMissing} ==>
      used.Some? && used.value <= Handles(idx) && SelectionFor(idx, used.value, packs, Selected(idx, used.value))
    ensures r == Failed(ErrSizeNotMatching) ==> exists f :: f in files && Mismatch(packs, f)
    ensures r == Failed(ErrSizeNotMatching) ==> exists f ::
      f in files && f.id in packs && packs[f.id].usedBlobs > 0 &&
        packs[f.id].usedSize + packs[f.id].unusedSize != f.size
    ensures r == Failed(ErrPacksMissing) ==>
      exists p :: p in packs && packs[p].usedBlobs > 0 && forall f :: f in files ==> f.id != p
    ensures r.Planned? ==> forall f :: f in files && f.id in packs && packs[f.id].usedBlobs > 0 ==>
      packs[f.id].usedSize + packs[f.id].unusedSize == f.size
    ensures r.Planned? ==> forall p :: p in packs && packs[p].usedBlobs > 0 ==> exists f :: f in files && f.id == p
    ensures r == Failed(ErrPacksMissing) ==>
      Needed(files, packs) != {} && !exists f :: f in files && Mismatch(packs, f)
    ensures r.Planned? ==>
      && stats.Some? && stats.value.Decided? && stats.value.plan == r.plan
      && DecidedPlan(cfg, opts, files, packs, StatsOf(idx, used.value, Selected(idx, used.value), true),
        stats.value, order)
      && DecidedStats(idx, Selected(idx, used.value), stats.value)
      && r.keepBlobs == KeepBlobs(idx, used.value, r.plan)
      && Needed(files, packs) == {} && !exists f :: f in files && Mismatch(packs, f)
  {
    packs, order, stats := map[], [], None;
    if connections < 2 {
      return Failed(TooFewConnections), stats, packs, order;
    }
    if cfg.version < 2 && opts.repackUncompressed {
      return Failed(VersionTooOld), stats, packs, order;
    }
    if used.None? {
      return Failed(UsedBlobsUnknown), stats, packs, order;
    }
    var sel := PackInfoFromIndex(idx, used.value);
    if sel.IndexIncomplete? {
      return Failed(ErrIndexIncomplete), stats, packs, order;
    }
    packs := sel.packs;
    ghost var marks := Selected(idx, used.value);
    var d;
    d, order := DecidePackAction(cfg, opts, files, sel.packs, sel.bytes, idx, used.value, marks);
    match d
    case SizeNotMatching(_) =>
      return Failed(ErrSizeNotMatching), stats, packs, order;
    case PacksMissing(_) =>
      return Failed(ErrPacksMissing), stats, packs, order;
    case Decided(plan, _, _, _, _) =>
      var keep := FilterKeepBlobs(idx, used.value, plan);
      return Planned(plan, keep), Some(d), packs, order;
  }
}
