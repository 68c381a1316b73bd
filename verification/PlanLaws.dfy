/** What a plan does with each pack, said in terms of the pack and the options alone. */
module PlanLaws {
  import opened Repository
  import opened PruneSelection
  import opened PruneDecision
  import opened Sorting

  ghost predicate IsCandidate(order: seq<Candidate>, id: Id) {
    exists c :: c in order && c.id == id
  }

  /** A needed pack of used blobs of one type that need not be compressed. */
  predicate Whole(cfg: Config, opts: Options, p: PackInfo) {
    && p.usedBlobs > 0 && p.unusedBlobs == 0 && p.tpe != InvalidBlob
    && (cfg.version < 2 || !p.uncompressed || (p.tpe != TreeBlob && !opts.repackUncompressed))
    && !(opts.repackCacheableOnly && p.tpe == DataBlob)
  }

  predicate BelowTarget(cfg: Config, opts: Options, size: nat) {
    if opts.repackSmall then size < cfg.packSize / 5 * 4 else size < cfg.packSize / 25
  }

  /** The listed packs that are whole, but small. */
  ghost function SmallPacks(cfg: Config, opts: Options, packs: map<Id, PackInfo>, files: seq<File>): set<Id> {
    set f | f in files && f.id in packs && Whole(cfg, opts, packs[f.id]) && BelowTarget(cfg, opts, f.size) :: f.id
  }

  lemma OneFile(files: seq<File>, f: File, g: File)
    requires ListedOnce(files) && f in files && g in files && f.id == g.id
    ensures f == g
  {
    var i :| 0 <= i < |files| && files[i] == f;
    var j :| 0 <= j < |files| && files[j] == g;
  }

  lemma ActionOfFile(cfg: Config, opts: Options, packs: map<Id, PackInfo>, files: seq<File>, f: File, a: Action)
    requires ListedOnce(files) && f in files && f.id in packs
    ensures f.id in WithAction(cfg, opts, packs, files, a) <==> ActionFor(cfg, opts, packs[f.id], f.size) == a
  {
    hide ListedOnce, ActionFor;
    forall g | g in files && g.id == f.id
      ensures g == f
    {
      OneFile(files, f, g);
    }
  }

  lemma SmallAre(cfg: Config, opts: Options, packs: map<Id, PackInfo>, files: seq<File>)
    ensures WithAction(cfg, opts, packs, files, RepackIfManySmall) == SmallPacks(cfg, opts, packs, files)
  {
  }

  /** A listed pack is removed exactly if it has no used blob.  A needed one is a candidate for
      repacking if it is neither whole nor, with the option for cacheable packs only, a data
      pack; a whole one is a candidate exactly if it is small and at least ten such packs are
      listed.  Only candidates are repacked. */
  lemma FateOfPack(cfg: Config, opts: Options, files: seq<File>, packs: map<Id, PackInfo>, bytes: BlobStats,
                   r: DecideResult, order: seq<Candidate>, f: File)
    requires r.Decided? && DecidedPlan(cfg, opts, files, packs, bytes, r, order)
    requires ListedOnce(files) && f in files && f.id in packs
    ensures var p := packs[f.id];
      && (f.id in r.plan.remove <==> p.usedBlobs == 0)
      && (p.usedBlobs == 0 ==> !IsCandidate(order, f.id))
      && (p.usedBlobs > 0 && opts.repackCacheableOnly && p.tpe == DataBlob ==> !IsCandidate(order, f.id))
      && (p.usedBlobs > 0 && !(opts.repackCacheableOnly && p.tpe == DataBlob) && !Whole(cfg, opts, p) ==>
            IsCandidate(order, f.id))
      && (Whole(cfg, opts, p) ==>
            (IsCandidate(order, f.id) <==>
               BelowTarget(cfg, opts, f.size) && |SmallPacks(cfg, opts, packs, files)| >= 10))
      && (f.id in r.plan.repack ==> IsCandidate(order, f.id))
  {
    hide ChooseAll, CandidatesOk, DistinctIds, Ordered, PacksCounted, LimitsFor, WithAction;
    var p := packs[f.id];
    ActionOfFile(cfg, opts, packs, files, f, Remove);
    ActionOfFile(cfg, opts, packs, files, f, RepackIfManySmall);
    ActionOfFile(cfg, opts, packs, files, f, RepackCandidate);
    SmallAre(cfg, opts, packs, files);
    assert IsCandidate(order, f.id) <==> f.id in Ids(order);
    ChosenAreCandidates(LimitsFor(cfg, opts, bytes, r.bytes.remove), 0, order);
  }

  // ----- What is repacked of the candidates -----

  /** The bytes of those candidates that are repacked. */
  function RepackedBytes(order: seq<Candidate>, repack: set<Id>): nat {
    if order == [] then 0
    else
      var c := order[|order| - 1];
      RepackedBytes(order[..|order| - 1], repack) + if c.id in repack then c.info.usedSize + c.info.unusedSize else 0
  }

  function FreedBytes(order: seq<Candidate>, repack: set<Id>): nat {
    if order == [] then 0
    else
      var c := order[|order| - 1];
      FreedBytes(order[..|order| - 1], repack) + if c.id in repack then c.info.unusedSize else 0
  }

  lemma {:induction false} SumsOfChosen(lim: Limits, cs: seq<Candidate>, repack: set<Id>)
    requires DistinctIds(cs)
    requires forall c :: c in cs ==> (c.id in repack <==> c.id in ChooseAll(lim, 0, cs).repack)
    ensures ChooseAll(lim, 0, cs).bytes == RepackedBytes(cs, repack)
    ensures ChooseAll(lim, 0, cs).bytesRm == FreedBytes(cs, repack)
  {
    if cs != [] {
      var n := |cs| - 1;
      var before := cs[..n];
      assert forall c :: c in before ==> c in cs;
      ChosenAreCandidates(lim, 0, before);
      assert cs[n] in cs;
      forall c | c in before
        ensures c.id in repack <==> c.id in ChooseAll(lim, 0, before).repack
      {
        var i :| 0 <= i < n && cs[i] == c;
      }
      SumsOfChosen(lim, before, repack);
    }
  }

  /** A candidate is repacked exactly if the packs repacked so far leave room for it, and it is
      not a pure data pack, must be compressed, is small, or still too many unused bytes are
      left, as far as their unsigned difference shows. */
  lemma RepackedIff(cfg: Config, opts: Options, files: seq<File>, packs: map<Id, PackInfo>, bytes: BlobStats,
                    r: DecideResult, order: seq<Candidate>, i: nat)
    requires r.Decided? && DecidedPlan(cfg, opts, files, packs, bytes, r, order) && i < |order|
    ensures var p := packs[order[i].id];
      var left := bytes.unused - r.bytes.remove - FreedBytes(order[..i], r.plan.repack);
      order[i].id in packs && order[i].info == p && (order[i].id in r.plan.repack <==>
        && RepackedBytes(order[..i], r.plan.repack) + p.usedSize + p.unusedSize < opts.maxRepackBytes
        && (|| p.tpe == TreeBlob || p.tpe == InvalidBlob || p.tpe == NumBlobTypes
            || (cfg.version >= 2 && opts.repackUncompressed && p.uncompressed)
            || BelowTarget(cfg, opts, p.usedSize + p.unusedSize)
            || left % 0x1_0000_0000_0000_0000 >= opts.maxUnusedBytes(bytes.used)))
  {
    hide PlanFits, PacksCounted, Ordered, WithAction, Ids, ChooseAll;
    assert order[i] in order;
    var lim := LimitsFor(cfg, opts, bytes, r.bytes.remove);
    var before := order[..i];
    ChosenIffTaken(lim, 0, order, i);
    PrefixChosen(lim, order, i);
    SumsOfChosen(lim, before, r.plan.repack);
  }

  lemma PrefixChosen(lim: Limits, cs: seq<Candidate>, i: nat)
    requires i <= |cs| && DistinctIds(cs)
    ensures DistinctIds(cs[..i])
    ensures forall c :: c in cs[..i] ==>
      (c.id in ChooseAll(lim, 0, cs).repack <==> c.id in ChooseAll(lim, 0, cs[..i]).repack)
  {
    hide ChooseAll, Takes;
    forall c | c in cs[..i]
      ensures c.id in ChooseAll(lim, 0, cs).repack <==> c.id in ChooseAll(lim, 0, cs[..i]).repack
    {
      var j :| 0 <= j < i && cs[..i][j] == c;
      ChosenIffTaken(lim, 0, cs, j);
      ChosenIffTaken(lim, 0, cs[..i], j);
      assert cs[..i][..j] == cs[..j];
    }
  }

  /** Candidates come in this order: packs with trees or of mixed types, then small packs, then
      those with more unused per used bytes. */
  lemma OrderOfCandidates(cfg: Config, opts: Options, files: seq<File>, packs: map<Id, PackInfo>, bytes: BlobStats,
                          r: DecideResult, order: seq<Candidate>, i: nat, j: nat)
    requires r.Decided? && DecidedPlan(cfg, opts, files, packs, bytes, r, order) && i < j < |order|
    ensures var p, q := order[i].info, order[j].info;
      var small := BelowTarget(cfg, opts, p.usedSize + p.unusedSize);
      var small' := BelowTarget(cfg, opts, q.usedSize + q.unusedSize);
      && (p.tpe == DataBlob ==> q.tpe == DataBlob)
      && ((p.tpe == DataBlob <==> q.tpe == DataBlob) && !small ==> !small')
      && ((p.tpe == DataBlob <==> q.tpe == DataBlob) && (small <==> small') ==>
            q.unusedSize * p.usedSize <= p.unusedSize * q.usedSize)
  {
    hide PlanFits, PacksCounted, WithAction, Ids, ChooseAll, CandidatesOk;
    assert !Before(TargetPackSize(cfg, opts), order[j], order[i]);
  }

  // ----- Statistics -----

  /** The counters of listed packs by use. */
  lemma PackCounts(cfg: Config, opts: Options, files: seq<File>, packs: map<Id, PackInfo>, bytes: BlobStats,
                   r: DecideResult, order: seq<Candidate>)
    requires r.Decided? && DecidedPlan(cfg, opts, files, packs, bytes, r, order)
    ensures r.packs.unused == |set f | f in files && f.id in packs && packs[f.id].usedBlobs == 0 :: f.id|
    ensures r.packs.used
      == |set f | f in files && f.id in packs && packs[f.id].usedBlobs > 0 && packs[f.id].unusedBlobs == 0 :: f.id|
    ensures r.packs.partlyUsed
      == |set f | f in files && f.id in packs && packs[f.id].usedBlobs > 0 && packs[f.id].unusedBlobs > 0 :: f.id|
    ensures r.packs.unref == |set f | f in files && f.id !in packs :: f.id|
  {
    hide CandidateOrder, ChooseAll, WithUse, UnrefBytes, WithAction;
    UnusedSet(packs, files);
    UsedSet(packs, files);
    PartlyUsedSet(packs, files);
    UnreferencedSet(packs, files);
  }

  lemma UnusedSet(packs: map<Id, PackInfo>, files: seq<File>)
    ensures WithUse(packs, files, UnusedPack)
         == set f | f in files && f.id in packs && packs[f.id].usedBlobs == 0 :: f.id
  {
  }

  lemma UsedSet(packs: map<Id, PackInfo>, files: seq<File>)
    ensures WithUse(packs, files, UsedPack)
         == set f | f in files && f.id in packs && packs[f.id].usedBlobs > 0 && packs[f.id].unusedBlobs == 0 :: f.id
  {
  }

  lemma PartlyUsedSet(packs: map<Id, PackInfo>, files: seq<File>)
    ensures WithUse(packs, files, PartlyUsedPack)
         == set f | f in files && f.id in packs && packs[f.id].usedBlobs > 0 && packs[f.id].unusedBlobs > 0 :: f.id
  {
  }

  lemma UnreferencedSet(packs: map<Id, PackInfo>, files: seq<File>)
    ensures Listed(files) - packs.Keys == set f | f in files && f.id !in packs :: f.id
  {
  }
}
