/** Deciding for every pack whether prune keeps, repacks, removes or forgets it
    (decidePackAction). */
module PruneDecision {
  import opened Repository
  import opened PruneSelection
  import opened Sorting

  datatype Options = Options(
    maxUnusedBytes: nat -> nat, maxRepackBytes: nat,
    repackCacheableOnly: bool, repackSmall: bool, repackUncompressed: bool)

  datatype Config = Config(version: nat, packSize: nat)

  /** A pack file as the backend lists it. */
  datatype File = File(id: Id, size: nat)

  datatype Candidate = Candidate(id: Id, info: PackInfo, mustCompress: bool)

  datatype Plan = Plan(removeFirst: set<Id>, remove: set<Id>, repack: set<Id>, ignore: set<Id>)

  datatype PackStats = PackStats(used: nat, unused: nat, partlyUsed: nat, unref: nat, keep: nat, repack: nat,
    remove: nat)

  /** Blobs or bytes that removing and repacking packs accounts for. */
  datatype ActionStats = ActionStats(remove: nat, repack: nat, repackrm: nat)

  datatype DecideResult =
    | Decided(plan: Plan, packs: PackStats, blobs: ActionStats, bytes: ActionStats, unref: nat)
    | SizeNotMatching(id: Id)
    | PacksMissing(ids: set<Id>)

  const WORD: nat := 0x1_0000_0000_0000_0000

  /** Subtraction of unsigned 64-bit numbers wraps around. */
  function Wrap(x: int): nat {
    x % WORD
  }

  ghost predicate ListedOnce(files: seq<File>) {
    forall i, j :: 0 <= i < j < |files| ==> files[i].id != files[j].id
  }

  ghost function Listed(files: seq<File>): set<Id> {
    set f | f in files :: f.id
  }

  function TargetPackSize(cfg: Config, opts: Options): nat {
    if opts.repackSmall then cfg.packSize / 5 * 4 else cfg.packSize / 25
  }

  function Size(p: PackInfo): nat {
    p.unusedSize + p.usedSize
  }

  function MustCompress(cfg: Config, opts: Options, p: PackInfo): bool {
    cfg.version >= 2 && (p.tpe == TreeBlob || opts.repackUncompressed) && p.uncompressed
  }

  datatype Action = Remove | Keep | RepackIfManySmall | RepackCandidate

  function ActionFor(cfg: Config, opts: Options, p: PackInfo, size: nat): Action {
    if p.usedBlobs == 0 then Remove
    else if opts.repackCacheableOnly && p.tpe == DataBlob then Keep
    else if p.unusedBlobs == 0 && p.tpe != InvalidBlob && !MustCompress(cfg, opts, p) then
      if size >= TargetPackSize(cfg, opts) then Keep else RepackIfManySmall
    else RepackCandidate
  }

  /** A needed pack whose size differs from what the index says. */
  predicate Mismatch(packs: map<Id, PackInfo>, f: File) {
    f.id in packs && packs[f.id].usedBlobs != 0 && Size(packs[f.id]) != f.size
  }

  // ----- The order of the candidates -----

  /** Packs with trees first, then packs that are too short, then the highest ratio of
      unused to used bytes. */
  function Before(target: nat, ci: Candidate, cj: Candidate): bool {
    var pi, pj := ci.info, cj.info;
    if pi.tpe != DataBlob && pj.tpe == DataBlob then true
    else if pj.tpe != DataBlob && pi.tpe == DataBlob then false
    else if Size(pi) < target && Size(pj) >= target then true
    else if Size(pj) < target && Size(pi) >= target then false
    else pi.unusedSize * pj.usedSize > pj.unusedSize * pi.usedSize
  }

  function Order(target: nat): (Candidate, Candidate) -> bool {
    (a, b) => Before(target, a, b)
  }

  lemma RatioTransitive(u1: nat, s1: nat, u2: nat, s2: nat, u3: nat, s3: nat)
    requires s1 > 0 && s2 > 0 && s3 > 0
    requires u1 * s2 <= u2 * s1 && u2 * s3 <= u3 * s2
    ensures u1 * s3 <= u3 * s1
  {
    calc {
      (u1 * s3) * s2;
      == (u1 * s2) * s3;
      <= { MulLe(u1 * s2, u2 * s1, s3); }
         (u2 * s1) * s3;
      == (u2 * s3) * s1;
      <= { MulLe(u2 * s3, u3 * s2, s1); }
         (u3 * s2) * s1;
      == (u3 * s1) * s2;
    }
    if u1 * s3 > u3 * s1 {
      MulLt(u3 * s1, u1 * s3, s2);
    }
  }

  lemma MulLe(a: int, b: int, c: nat)
    requires a <= b
    ensures a * c <= b * c
  {
    assert (b - a) * c >= 0;
  }

  lemma MulLt(a: int, b: int, c: int)
    requires a < b && c > 0
    ensures a * c < b * c
  {
    assert (b - a) * c > 0;
  }

  /** The comparison is a strict weak order because the used size includes the header. */
  lemma BeforeIsWeakOrder(target: nat, s: seq<Candidate>)
    requires forall c :: c in s ==> c.info.usedSize > 0
    ensures WeakOrder(s, Order(target))
  {
    forall a, b, c | a in s && b in s && c in s && !Before(target, a, b) && !Before(target, b, c)
      ensures !Before(target, a, c)
    {
      var p, q, r := a.info, b.info, c.info;
      if p.unusedSize * q.usedSize <= q.unusedSize * p.usedSize &&
        q.unusedSize * r.usedSize <= r.unusedSize * q.usedSize {
        RatioTransitive(p.unusedSize, p.usedSize, q.unusedSize, q.usedSize, r.unusedSize, r.usedSize);
      }
    }
    forall a, b | a in s && b in s && Before(target, a, b)
      ensures !Before(target, b, a)
    {
    }
  }

  /** With a used size of zero the comparison would not even be transitive. */
  lemma ZeroUsedSizeBreaksOrder()
    ensures exists a: Candidate, b: Candidate, c: Candidate ::
      !Before(0, a, b) && !Before(0, b, c) && Before(0, a, c)
  {
    var a := Candidate(1, PackInfo(1, 1, 0, 1, 5, DataBlob, false), false);
    var b := Candidate(2, PackInfo(1, 1, 0, 0, 0, DataBlob, false), false);
    var c := Candidate(3, PackInfo(1, 1, 0, 1, 0, DataBlob, false), false);
    assert !Before(0, a, b) && !Before(0, b, c) && Before(0, a, c);
  }

  lemma WrapSmall(x: int)
    requires 0 <= x < WORD
    ensures Wrap(x) == x
  {
  }

  /** Sizes below 2^32, which pack files have, keep the products exact in 64 bits. */
  lemma ProductsFit(a: nat, b: nat)
    requires a < 0x1_0000_0000 && b < 0x1_0000_0000
    ensures Wrap(a * b) == a * b
  {
    MulLe(0, a, b);
    MulLe(a, 0xFFFF_FFFF, b);
    WrapSmall(a * b);
  }

  // ----- Which candidates are repacked -----

  /** What the loop over the sorted candidates accumulates. */
  datatype Chosen = Chosen(repack: set<Id>, keep: nat, blobs: nat, bytes: nat, blobsRm: nat, bytesRm: nat)

  /** The limits of one run: `waste` is the unused bytes less those that go with removed packs. */
  datatype Limits = Limits(waste: int, maxUnusedAfter: nat, maxRepackBytes: nat, target: nat)

  function ReachedUnused(lim: Limits, acc: Chosen): bool {
    Wrap(lim.waste - acc.bytesRm) < lim.maxUnusedAfter
  }

  function ReachedRepackSize(lim: Limits, acc: Chosen, p: PackInfo): bool {
    acc.bytes + Size(p) >= lim.maxRepackBytes
  }

  predicate Mandatory(c: Candidate) {
    c.info.tpe != DataBlob || c.mustCompress
  }

  predicate Takes(lim: Limits, acc: Chosen, c: Candidate) {
    && !ReachedRepackSize(lim, acc, c.info)
    && (Mandatory(c) || !(ReachedUnused(lim, acc) && Size(c.info) >= lim.target))
  }

  function Choose(lim: Limits, acc: Chosen, c: Candidate): Chosen {
    if Takes(lim, acc, c) then
      Chosen(acc.repack + {c.id}, acc.keep,
        acc.blobs + c.info.unusedBlobs + c.info.usedBlobs, acc.bytes + Size(c.info),
        acc.blobsRm + c.info.unusedBlobs, acc.bytesRm + c.info.unusedSize)
    else acc.(keep := acc.keep + 1)
  }

  function ChooseAll(lim: Limits, keep: nat, cs: seq<Candidate>): Chosen {
    if cs == [] then Chosen({}, keep, 0, 0, 0, 0)
    else Choose(lim, ChooseAll(lim, keep, cs[..|cs| - 1]), cs[|cs| - 1])
  }

  ghost predicate DistinctIds(cs: seq<Candidate>) {
    forall i, j :: 0 <= i < j < |cs| ==> cs[i].id != cs[j].id
  }

  /** Nothing is repacked, or less than the limit. */
  lemma {:induction false} RepackSizeLimited(lim: Limits, keep: nat, cs: seq<Candidate>)
    ensures var r := ChooseAll(lim, keep, cs);
      (r.repack == {} && r.bytes == 0) || r.bytes < lim.maxRepackBytes
  {
    if cs != [] {
      RepackSizeLimited(lim, keep, cs[..|cs| - 1]);
    }
  }

  lemma {:induction false} ChoicesOnlyGrow(lim: Limits, keep: nat, cs: seq<Candidate>, i: nat)
    requires i <= |cs|
    ensures var a, b := ChooseAll(lim, keep, cs[..i]), ChooseAll(lim, keep, cs);
      a.repack <= b.repack && a.bytes <= b.bytes && a.bytesRm <= b.bytesRm
  {
    if i < |cs| {
      var n := |cs| - 1;
      ChoicesOnlyGrow(lim, keep, cs[..n], i);
      assert cs[..n][..i] == cs[..i];
    } else {
      assert cs[..i] == cs;
    }
  }

  lemma {:induction false} ChosenAreCandidates(lim: Limits, keep: nat, cs: seq<Candidate>)
    ensures ChooseAll(lim, keep, cs).repack <= set c | c in cs :: c.id
  {
    if cs != [] {
      var n := |cs| - 1;
      ChosenAreCandidates(lim, keep, cs[..n]);
      assert forall c :: c in cs[..n] ==> c in cs;
      assert cs[n] in cs;
    }
  }

  /** Whether a candidate is repacked is decided when its turn comes. */
  lemma {:induction false} ChosenIffTaken(lim: Limits, keep: nat, cs: seq<Candidate>, i: nat)
    requires i < |cs| && DistinctIds(cs)
    ensures cs[i].id in ChooseAll(lim, keep, cs).repack <==> Takes(lim, ChooseAll(lim, keep, cs[..i]), cs[i])
  {
    var n := |cs| - 1;
    ChosenAreCandidates(lim, keep, cs[..n]);
    if i < n {
      ChosenIffTaken(lim, keep, cs[..n], i);
      assert cs[..n][..i] == cs[..i];
    }
  }

  /** Kept candidates: a pack with trees, of mixed content or to be compressed is kept only
      because repacking it would reach the size limit; any other kept pack for that reason,
      or because it is large enough and, as far as the difference did not wrap around, the
      tolerated amount of unused bytes is reached. */
  lemma WhyCandidatesAreKept(lim: Limits, keep: nat, cs: seq<Candidate>, i: nat)
    requires i < |cs| && DistinctIds(cs) && lim.waste < WORD
    ensures var r, c := ChooseAll(lim, keep, cs), cs[i];
      c.id !in r.repack ==>
        || r.bytes + Size(c.info) >= lim.maxRepackBytes
        || (&& !Mandatory(c) && Size(c.info) >= lim.target
            && (0 <= lim.waste - r.bytesRm ==> lim.waste - r.bytesRm < lim.maxUnusedAfter))
  {
    ChosenIffTaken(lim, keep, cs, i);
    ChoicesOnlyGrow(lim, keep, cs, i);
  }

  /** Every candidate is either repacked or kept. */
  lemma {:induction false} ChoicesCounted(lim: Limits, keep: nat, cs: seq<Candidate>)
    requires DistinctIds(cs)
    ensures var r := ChooseAll(lim, keep, cs);
      r.keep + |r.repack| == keep + |cs|
  {
    if cs != [] {
      var n := |cs| - 1;
      ChoicesCounted(lim, keep, cs[..n]);
      ChosenAreCandidates(lim, keep, cs[..n]);
    }
  }

  // ----- Classifying the listed packs -----

  /** Loop over the listed pack files. */
  datatype Classified = Classified(
    removeFirst: set<Id>, remove: set<Id>, small: seq<Candidate>, large: seq<Candidate>,
    stats: PackStats, blobsRemove: nat, bytesRemove: nat, unref: nat)

  /** The index, and the marks that the pack infos were computed from. */
  ghost predicate InfosFrom(packs: map<Id, PackInfo>, idx: seq<Entry>, used: set<Handle>, marks: seq<bool>) {
    && |marks| == |idx|
    && packs.Keys == Packs(idx)
    && forall p :: p in packs ==> packs[p] == InfoOf(idx, used, marks, p)
  }

  ghost function WithAction(cfg: Config, opts: Options, packs: map<Id, PackInfo>, files: seq<File>,
                            a: Action): set<Id> {
    set f | f in files && f.id in packs && ActionFor(cfg, opts, packs[f.id], f.size) == a :: f.id
  }

  ghost function Ids(cs: seq<Candidate>): set<Id> {
    set c | c in cs :: c.id
  }

  ghost predicate CandidatesOk(cfg: Config, opts: Options, packs: map<Id, PackInfo>, cs: seq<Candidate>) {
    forall c :: c in cs ==>
      && c.id in packs && c.info == packs[c.id] && c.info.usedBlobs > 0
      && c.mustCompress == MustCompress(cfg, opts, c.info)
  }

  datatype Use = UnusedPack | UsedPack | PartlyUsedPack

  function UseOf(p: PackInfo): Use {
    if p.usedBlobs == 0 then UnusedPack else if p.unusedBlobs == 0 then UsedPack else PartlyUsedPack
  }

  ghost function WithUse(packs: map<Id, PackInfo>, files: seq<File>, u: Use): set<Id> {
    set f | f in files && f.id in packs && UseOf(packs[f.id]) == u :: f.id
  }

  /** The size of the listed packs that the index does not know. */
  function UnrefBytes(packs: map<Id, PackInfo>, files: seq<File>): nat {
    if files == [] then 0
    else
      var f := files[|files| - 1];
      UnrefBytes(packs, files[..|files| - 1]) + if f.id in packs then 0 else f.size
  }

  ghost predicate PacksCounted(packs: map<Id, PackInfo>, files: seq<File>, s: PackStats, unref: nat) {
    && s.unused == |WithUse(packs, files, UnusedPack)|
    && s.used == |WithUse(packs, files, UsedPack)|
    && s.partlyUsed == |WithUse(packs, files, PartlyUsedPack)|
    && unref == UnrefBytes(packs, files)
  }

  /** The four sets are what the action of each listed pack says. */
  ghost predicate SetsUpTo(cfg: Config, opts: Options, packs: map<Id, PackInfo>, files: seq<File>, c: Classified) {
    && c.removeFirst == Listed(files) - packs.Keys
    && c.remove == WithAction(cfg, opts, packs, files, Remove)
    && Ids(c.small) == WithAction(cfg, opts, packs, files, RepackIfManySmall)
    && Ids(c.large) == WithAction(cfg, opts, packs, files, RepackCandidate)
  }

  /** No pack is a candidate twice and every listed pack is counted once. */
  ghost predicate CandidatesUpTo(cfg: Config, opts: Options, packs: map<Id, PackInfo>, c: Classified) {
    && CandidatesOk(cfg, opts, packs, c.small + c.large)
    && DistinctIds(c.small + c.large)
    && c.stats.used + c.stats.unused + c.stats.partlyUsed == |c.remove| + c.stats.keep + |c.small + c.large|
  }

  ghost predicate ClassifiedUpTo(cfg: Config, opts: Options, packs: map<Id, PackInfo>, files: seq<File>,
                                 c: Classified) {
    && SetsUpTo(cfg, opts, packs, files, c)
    && CandidatesUpTo(cfg, opts, packs, c)
    && PacksCounted(packs, files, c.stats, c.unref)
    && (forall f :: f in files ==> !Mismatch(packs, f))
  }

  lemma UnusedInAdd(idx: seq<Entry>, marks: seq<bool>, ps: set<Id>, p: Id)
    requires |marks| == |idx| && p !in ps
    ensures Total(UnusedIn(ps + {p}, false), idx, marks) ==
      Total(UnusedIn(ps, false), idx, marks) + Total(UnusedBlobs(p), idx, marks)
    ensures Total(UnusedIn(ps + {p}, true), idx, marks) ==
      Total(UnusedIn(ps, true), idx, marks) + Total(UnusedBytes(p), idx, marks)
  {
    TotalSplit(UnusedIn(ps + {p}, false), UnusedIn(ps, false), UnusedBlobs(p), idx, marks);
    TotalSplit(UnusedIn(ps + {p}, true), UnusedIn(ps, true), UnusedBytes(p), idx, marks);
  }

  lemma {:induction false} UnusedInNone(idx: seq<Entry>, marks: seq<bool>, bytes: bool)
    requires |marks| == |idx|
    ensures Total(UnusedIn({}, bytes), idx, marks) == 0
  {
    if idx != [] {
      UnusedInNone(idx[..|idx| - 1], marks[..|idx| - 1], bytes);
    }
  }

  function CountUse(p: PackInfo, s: PackStats): PackStats {
    match UseOf(p)
    case UnusedPack => s.(unused := s.unused + 1)
    case UsedPack => s.(used := s.used + 1)
    case PartlyUsedPack => s.(partlyUsed := s.partlyUsed + 1)
  }

  /** What is done with one listed file. */
  function Classify(cfg: Config, opts: Options, packs: map<Id, PackInfo>, c: Classified, f: File): Classified {
    if f.id !in packs then
      c.(removeFirst := c.removeFirst + {f.id}, unref := c.unref + f.size)
    else
      var p := packs[f.id];
      var cand := Candidate(f.id, p, MustCompress(cfg, opts, p));
      var s := CountUse(p, c.stats);
      match ActionFor(cfg, opts, p, f.size)
      case Remove => c.(stats := s, remove := c.remove + {f.id},
                        blobsRemove := c.blobsRemove + p.unusedBlobs, bytesRemove := c.bytesRemove + p.unusedSize)
      case Keep => c.(stats := s.(keep := s.keep + 1))
      case RepackIfManySmall => c.(stats := s, small := c.small + [cand])
      case RepackCandidate => c.(stats := s, large := c.large + [cand])
  }

  lemma WithActionSnoc(cfg: Config, opts: Options, packs: map<Id, PackInfo>, files: seq<File>, f: File, a: Action)
    ensures WithAction(cfg, opts, packs, files + [f], a)
      == WithAction(cfg, opts, packs, files, a)
         + if f.id in packs && ActionFor(cfg, opts, packs[f.id], f.size) == a then {f.id} else {}
    ensures WithAction(cfg, opts, packs, files, a) <= Listed(files)
  {
  }

  lemma ClassifyKeepsSets(cfg: Config, opts: Options, packs: map<Id, PackInfo>, files: seq<File>, f: File,
                          c: Classified)
    requires SetsUpTo(cfg, opts, packs, files, c)
    ensures SetsUpTo(cfg, opts, packs, files + [f], Classify(cfg, opts, packs, c, f))
  {
    WithActionSnoc(cfg, opts, packs, files, f, Remove);
    WithActionSnoc(cfg, opts, packs, files, f, RepackIfManySmall);
    WithActionSnoc(cfg, opts, packs, files, f, RepackCandidate);
    assert Listed(files + [f]) == Listed(files) + {f.id};
    if f.id in packs {
      var cand := Candidate(f.id, packs[f.id], MustCompress(cfg, opts, packs[f.id]));
      IdsSnoc(c.small, cand);
      IdsSnoc(c.large, cand);
    }
  }

  lemma ClassifyKeepsCandidates(cfg: Config, opts: Options, packs: map<Id, PackInfo>, f: File, c: Classified)
    requires CandidatesUpTo(cfg, opts, packs, c)
    requires f.id !in c.remove && f.id !in Ids(c.small) && f.id !in Ids(c.large)
    ensures CandidatesUpTo(cfg, opts, packs, Classify(cfg, opts, packs, c, f))
  {
    hide Classify, CandidatesOk, DistinctIds;
    CandidatesStayOk(cfg, opts, packs, f, c);
    CandidatesStayDistinct(cfg, opts, packs, f, c);
    CandidatesStayCounted(cfg, opts, packs, f, c);
  }

  lemma CandidatesStayOk(cfg: Config, opts: Options, packs: map<Id, PackInfo>, f: File, c: Classified)
    requires CandidatesOk(cfg, opts, packs, c.small + c.large)
    ensures var d := Classify(cfg, opts, packs, c, f);
      CandidatesOk(cfg, opts, packs, d.small + d.large)
  {
    var d := Classify(cfg, opts, packs, c, f);
    forall x | x in d.small + d.large
      ensures x in c.small + c.large || (f.id in packs && packs[f.id].usedBlobs > 0
        && x == Candidate(f.id, packs[f.id], MustCompress(cfg, opts, packs[f.id])))
    {
    }
    hide Classify, MustCompress;
  }

  lemma CandidatesStayDistinct(cfg: Config, opts: Options, packs: map<Id, PackInfo>, f: File, c: Classified)
    requires DistinctIds(c.small + c.large) && f.id !in Ids(c.small) && f.id !in Ids(c.large)
    ensures var d := Classify(cfg, opts, packs, c, f);
      DistinctIds(d.small + d.large)
  {
    hide DistinctIds, Ids, CountUse, MustCompress;
    if f.id in packs {
      var cand := Candidate(f.id, packs[f.id], MustCompress(cfg, opts, packs[f.id]));
      DistinctInsert(c.small, c.large, cand);
      assert c.small + (c.large + [cand]) == c.small + c.large + [cand];
    }
  }

  lemma CandidatesStayCounted(cfg: Config, opts: Options, packs: map<Id, PackInfo>, f: File, c: Classified)
    requires c.stats.used + c.stats.unused + c.stats.partlyUsed == |c.remove| + c.stats.keep + |c.small| + |c.large|
    requires f.id !in c.remove
    ensures var d := Classify(cfg, opts, packs, c, f);
      d.stats.used + d.stats.unused + d.stats.partlyUsed == |d.remove| + d.stats.keep + |d.small + d.large|
  {
    hide MustCompress, ActionFor, CountUse;
    if f.id in packs {
      UseCounted(packs[f.id], c.stats);
    }
  }

  lemma UseCounted(p: PackInfo, s: PackStats)
    ensures var t := CountUse(p, s);
      t.used + t.unused + t.partlyUsed == s.used + s.unused + s.partlyUsed + 1 && t.keep == s.keep
  {
  }

  lemma WithUseSnoc(packs: map<Id, PackInfo>, files: seq<File>, f: File, u: Use)
    requires f.id !in Listed(files)
    ensures |WithUse(packs, files + [f], u)|
      == |WithUse(packs, files, u)| + if f.id in packs && UseOf(packs[f.id]) == u then 1 else 0
  {
    var more := if f.id in packs && UseOf(packs[f.id]) == u then {f.id} else {};
    assert WithUse(packs, files + [f], u) == WithUse(packs, files, u) + more;
    assert WithUse(packs, files, u) <= Listed(files);
  }

  lemma ClassifyKeepsCounts(cfg: Config, opts: Options, packs: map<Id, PackInfo>, files: seq<File>, f: File,
                            c: Classified)
    requires PacksCounted(packs, files, c.stats, c.unref) && f.id !in Listed(files)
    ensures var d := Classify(cfg, opts, packs, c, f);
      PacksCounted(packs, files + [f], d.stats, d.unref)
  {
    hide WithUse;
    WithUseSnoc(packs, files, f, UnusedPack);
    WithUseSnoc(packs, files, f, UsedPack);
    WithUseSnoc(packs, files, f, PartlyUsedPack);
    assert (files + [f])[..|files|] == files;
  }

  lemma ClassifyKeeps(cfg: Config, opts: Options, packs: map<Id, PackInfo>, files: seq<File>, f: File, c: Classified)
    requires ClassifiedUpTo(cfg, opts, packs, files, c)
    requires f.id !in Listed(files) && !Mismatch(packs, f)
    ensures ClassifiedUpTo(cfg, opts, packs, files + [f], Classify(cfg, opts, packs, c, f))
    ensures f.id !in c.remove
  {
    WithActionSnoc(cfg, opts, packs, files, f, Remove);
    WithActionSnoc(cfg, opts, packs, files, f, RepackIfManySmall);
    WithActionSnoc(cfg, opts, packs, files, f, RepackCandidate);
    ClassifyKeepsSets(cfg, opts, packs, files, f, c);
    ClassifyKeepsCandidates(cfg, opts, packs, f, c);
    ClassifyKeepsCounts(cfg, opts, packs, files, f, c);
  }

  /** The unused blobs and bytes of the packs to remove are counted. */
  ghost predicate RemovalCounted(c: Classified, idx: seq<Entry>, marks: seq<bool>) {
    && |marks| == |idx|
    && c.blobsRemove == Total(UnusedIn(c.remove, false), idx, marks)
    && c.bytesRemove == Total(UnusedIn(c.remove, true), idx, marks)
  }

  lemma ClassifyCountsRemoval(cfg: Config, opts: Options, packs: map<Id, PackInfo>, f: File, c: Classified,
                              idx: seq<Entry>, used: set<Handle>, marks: seq<bool>)
    requires InfosFrom(packs, idx, used, marks)
    requires RemovalCounted(c, idx, marks) && f.id !in c.remove
    ensures RemovalCounted(Classify(cfg, opts, packs, c, f), idx, marks)
  {
    UnusedInAdd(idx, marks, c.remove, f.id);
    PackTotals(idx, used, marks, f.id);
  }

  lemma IdsSnoc(cs: seq<Candidate>, c: Candidate)
    ensures Ids(cs + [c]) == Ids(cs) + {c.id}
  {
    assert c in cs + [c];
    assert forall x :: x in cs ==> x in cs + [c];
  }

  lemma DistinctInsert(small: seq<Candidate>, large: seq<Candidate>, c: Candidate)
    requires DistinctIds(small + large)
    requires c.id !in Ids(small) && c.id !in Ids(large)
    ensures DistinctIds(small + [c] + large) && DistinctIds(small + large + [c])
    ensures forall x :: x in small + [c] + large <==> x in small + large || x == c
  {
    var s, t := small + large, small + [c] + large;
    forall i | 0 <= i < |s|
      ensures s[i].id != c.id
    {
      if i < |small| {
        assert s[i] in small;
      } else {
        assert s[i] in large;
      }
    }
    forall i, j | 0 <= i < j < |t|
      ensures t[i].id != t[j].id
    {
      var i', j' := if i <= |small| then i else i - 1, if j <= |small| then j else j - 1;
      if i != |small| && j != |small| {
        assert t[i] == s[i'] && t[j] == s[j'];
      }
    }
  }

  lemma ClassifyNext(cfg: Config, opts: Options, packs: map<Id, PackInfo>, files: seq<File>, i: nat, c: Classified,
                     idx: seq<Entry>, used: set<Handle>, marks: seq<bool>)
    requires ListedOnce(files) && InfosFrom(packs, idx, used, marks) && i < |files| && !Mismatch(packs, files[i])
    requires ClassifiedUpTo(cfg, opts, packs, files[..i], c) && RemovalCounted(c, idx, marks)
    ensures ClassifiedUpTo(cfg, opts, packs, files[..i + 1], Classify(cfg, opts, packs, c, files[i]))
    ensures RemovalCounted(Classify(cfg, opts, packs, c, files[i]), idx, marks)
  {
    hide ClassifiedUpTo, RemovalCounted, Classify, InfosFrom;
    assert files[..i + 1] == files[..i] + [files[i]];
    ClassifyKeeps(cfg, opts, packs, files[..i], files[i], c);
    ClassifyCountsRemoval(cfg, opts, packs, files[i], c, idx, used, marks);
  }

  lemma NothingClassified(cfg: Config, opts: Options, packs: map<Id, PackInfo>, files: seq<File>, c: Classified)
    requires c == Classified({}, {}, [], [], PackStats(0, 0, 0, 0, 0, 0, 0), 0, 0, 0)
    ensures ClassifiedUpTo(cfg, opts, packs, files[..0], c)
  {
  }

  /** The loop over the pack files; stops at the first needed pack of the wrong size. */
  method ClassifyPacks(cfg: Config, opts: Options, files: seq<File>, packs: map<Id, PackInfo>,
                       ghost idx: seq<Entry>, ghost used: set<Handle>, ghost marks: seq<bool>)
    returns (bad: Option<Id>, c: Classified)
    requires ListedOnce(files) && InfosFrom(packs, idx, used, marks)
    ensures bad.None? ==> forall f :: f in files ==> !Mismatch(packs, f)
    ensures bad.Some? ==> exists f :: f in files && Mismatch(packs, f) && f.id == bad.value
    ensures bad.None? ==> ClassifiedUpTo(cfg, opts, packs, files, c)
    ensures bad.None? ==> RemovalCounted(c, idx, marks)
  {
    c := Classified({}, {}, [], [], PackStats(0, 0, 0, 0, 0, 0, 0), 0, 0, 0);
    bad := None;
    UnusedInNone(idx, marks, false);
    UnusedInNone(idx, marks, true);
    NothingClassified(cfg, opts, packs, files, c);
    hide ClassifiedUpTo, RemovalCounted, Classify, InfosFrom;
    for i := 0 to |files|
      invariant ClassifiedUpTo(cfg, opts, packs, files[..i], c)
      invariant RemovalCounted(c, idx, marks)
    {
      var f := files[i];
      if f.id in packs && packs[f.id].usedBlobs != 0 && packs[f.id].unusedSize + packs[f.id].usedSize != f.size {
        assert f in files && Mismatch(packs, f);
        return Some(f.id), c;
      }
      ClassifyNext(cfg, opts, packs, files, i, c, idx, used, marks);
      c := Classify(cfg, opts, packs, c, f);
    }
    assert files[..|files|] == files;
  }

  lemma PackTotals(idx: seq<Entry>, used: set<Handle>, marks: seq<bool>, p: Id)
    requires |marks| == |idx|
    ensures var i := InfoOf(idx, used, marks, p);
      i.unusedBlobs == Total(UnusedBlobs(p), idx, marks) && i.unusedSize == Total(UnusedBytes(p), idx, marks)
  {
    assert idx[..|idx|] == idx && marks[..|idx|] == marks;
  }

  /** Packs that are indexed but not listed are forgotten unless they are needed. */
  method ForgetMissing(missing: map<Id, PackInfo>, blobs0: nat, bytes0: nat, ghost remove: set<Id>,
                       ghost idx: seq<Entry>, ghost used: set<Handle>, ghost marks: seq<bool>)
    returns (ignore: set<Id>, needed: set<Id>, blobs: nat, bytes: nat)
    requires |marks| == |idx| && remove !! missing.Keys
    requires forall p :: p in missing ==> missing[p] == InfoOf(idx, used, marks, p)
    requires blobs0 == Total(UnusedIn(remove, false), idx, marks)
    requires bytes0 == Total(UnusedIn(remove, true), idx, marks)
    ensures ignore == set p | p in missing && missing[p].usedBlobs == 0
    ensures needed == missing.Keys - ignore
    ensures blobs == Total(UnusedIn(remove + ignore, false), idx, marks)
    ensures bytes == Total(UnusedIn(remove + ignore, true), idx, marks)
  {
    ignore, needed, blobs, bytes := {}, {}, blobs0, bytes0;
    var todo := missing.Keys;
    assert remove + ignore == remove;
    while todo != {}
      invariant todo <= missing.Keys
      invariant ignore == set p | p in missing.Keys - todo && missing[p].usedBlobs == 0
      invariant needed == missing.Keys - todo - ignore
      invariant blobs == Total(UnusedIn(remove + ignore, false), idx, marks)
      invariant bytes == Total(UnusedIn(remove + ignore, true), idx, marks)
    {
      var id :| id in todo;
      if missing[id].usedBlobs == 0 {
        UnusedInAdd(idx, marks, remove + ignore, id);
        PackTotals(idx, used, marks, id);
        assert remove + (ignore + {id}) == remove + ignore + {id};
        ignore := ignore + {id};
        blobs, bytes := blobs + missing[id].unusedBlobs, bytes + missing[id].unusedSize;
      } else {
        needed := needed + {id};
      }
      todo := todo - {id};
    }
  }

  /** Sorts the candidates and takes them in that order as the limits allow. */
  method ChooseRepack(lim: Limits, keep: nat, cands: seq<Candidate>) returns (acc: Chosen, order: seq<Candidate>)
    requires forall c :: c in cands ==> c.info.usedSize > 0
    ensures multiset(order) == multiset(cands) && Ordered(order, Order(lim.target))
    ensures acc == ChooseAll(lim, keep, order)
  {
    BeforeIsWeakOrder(lim.target, cands);
    order := SortBy(cands, Order(lim.target));
    acc := Chosen({}, keep, 0, 0, 0, 0);
    for i := 0 to |order|
      invariant acc == ChooseAll(lim, keep, order[..i])
    {
      var c := order[i];
      assert order[..i + 1][..i] == order[..i];
      var reachedUnusedSizeAfter := Wrap(lim.waste - acc.bytesRm) < lim.maxUnusedAfter;
      var reachedRepackSize := acc.bytes + c.info.unusedSize + c.info.usedSize >= lim.maxRepackBytes;
      var packIsLargeEnough := c.info.unusedSize + c.info.usedSize >= lim.target;
      var repack := !reachedRepackSize
        && (c.info.tpe != DataBlob || c.mustCompress || !(reachedUnusedSizeAfter && packIsLargeEnough));
      if repack {
        acc := Chosen(acc.repack + {c.id}, acc.keep,
          acc.blobs + c.info.unusedBlobs + c.info.usedBlobs, acc.bytes + c.info.unusedSize + c.info.usedSize,
          acc.blobsRm + c.info.unusedBlobs, acc.bytesRm + c.info.unusedSize);
      } else {
        acc := acc.(keep := acc.keep + 1);
      }
    }
    assert order[..|order|] == order;
  }

  lemma {:induction false} RepackRmIsUnused(lim: Limits, keep: nat, cs: seq<Candidate>, packs: map<Id, PackInfo>,
                                            idx: seq<Entry>, used: set<Handle>, marks: seq<bool>)
    requires |marks| == |idx| && DistinctIds(cs)
    requires forall c :: c in cs ==> c.info == InfoOf(idx, used, marks, c.id)
    ensures var r := ChooseAll(lim, keep, cs);
      && r.blobsRm == Total(UnusedIn(r.repack, false), idx, marks)
      && r.bytesRm == Total(UnusedIn(r.repack, true), idx, marks)
  {
    if cs == [] {
      UnusedInNone(idx, marks, false);
      UnusedInNone(idx, marks, true);
    } else {
      var n := |cs| - 1;
      RepackRmIsUnused(lim, keep, cs[..n], packs, idx, used, marks);
      var r := ChooseAll(lim, keep, cs[..n]);
      ChosenAreCandidates(lim, keep, cs[..n]);
      assert cs[n] in cs;
      assert cs[n].id !in r.repack;
      UnusedInAdd(idx, marks, r.repack, cs[n].id);
      PackTotals(idx, used, marks, cs[n].id);
    }
  }

  /** Fewer than ten small packs are not worth the trouble. */
  const MIN_SMALL: nat := 10

  ghost predicate CandidateOrder(cfg: Config, opts: Options, packs: map<Id, PackInfo>, files: seq<File>,
                                 order: seq<Candidate>) {
    && CandidatesOk(cfg, opts, packs, order) && DistinctIds(order)
    && Ordered(order, Order(TargetPackSize(cfg, opts)))
    && var small := WithAction(cfg, opts, packs, files, RepackIfManySmall);
       Ids(order) == WithAction(cfg, opts, packs, files, RepackCandidate) + if |small| < MIN_SMALL then {} else small
  }

  ghost predicate PlanFits(cfg: Config, opts: Options, packs: map<Id, PackInfo>, files: seq<File>, plan: Plan) {
    && plan.removeFirst == Listed(files) - packs.Keys
    && plan.remove == WithAction(cfg, opts, packs, files, Remove)
    && plan.ignore == packs.Keys - Listed(files)
    && (forall p :: p in plan.ignore ==> packs[p].usedBlobs == 0)
    && (forall p :: p in plan.repack ==> p in packs && p in Listed(files) && packs[p].usedBlobs > 0)
  }

  lemma {:induction false} DistinctCount(cs: seq<Candidate>)
    requires DistinctIds(cs)
    ensures |Ids(cs)| == |cs|
  {
    if cs != [] {
      var n := |cs| - 1;
      var init, last := cs[..n], cs[n];
      assert DistinctIds(init);
      DistinctCount(init);
      IdsSnoc(init, last);
      assert cs == init + [last];
      assert last.id !in Ids(init);
    }
  }

  lemma PermutedCandidates(cfg: Config, opts: Options, packs: map<Id, PackInfo>, cands: seq<Candidate>,
                           order: seq<Candidate>)
    requires CandidatesOk(cfg, opts, packs, cands) && DistinctIds(cands) && multiset(order) == multiset(cands)
    ensures CandidatesOk(cfg, opts, packs, order) && DistinctIds(order) && Ids(order) == Ids(cands) &&
      |order| == |cands|
  {
    SameMembers(cands, order);
    PermutationNoRepeats(cands, order);
    forall i, j | 0 <= i < j < |order|
      ensures order[i].id != order[j].id
    {
      assert order[i] in cands && order[j] in cands && order[i] != order[j];
    }
  }

  lemma NeededHasHeader(packs: map<Id, PackInfo>, idx: seq<Entry>, used: set<Handle>, marks: seq<bool>, p: Id)
    requires InfosFrom(packs, idx, used, marks) && p in packs
    ensures packs[p].usedSize > 0
  {
    HeaderPositive(idx, p);
  }

  lemma {:induction false} HeaderPositive(idx: seq<Entry>, p: Id)
    ensures PackSize(idx, p, true) >= HEADER_SIZE
  {
    if idx != [] {
      HeaderPositive(idx[..|idx| - 1], p);
    }
  }

  /** What goes with removed and repacked packs never exceeds the unused bytes and copies
      not picked, so what remains unused afterwards is not negative. */
  lemma {:induction false} UnusedInBounded(ps: set<Id>, bytes: bool, idx: seq<Entry>, used: set<Handle>,
                                           marks: seq<bool>)
    requires |marks| == |idx|
    ensures Total(UnusedIn(ps, bytes), idx, marks)
         <= Total(AllDuplicate(used, bytes), idx, marks) + Total(AllUnused(used, bytes), idx, marks)
  {
    if idx != [] {
      var n := |idx| - 1;
      UnusedInBounded(ps, bytes, idx[..n], used, marks[..n]);
    }
  }

  lemma RemovalBounded(ps: set<Id>, bytes: bool, idx: seq<Entry>, used: set<Handle>, marks: seq<bool>)
    requires |marks| == |idx|
    ensures var s := StatsOf(idx, used, marks, bytes);
      Total(UnusedIn(ps, bytes), idx, marks) <= s.dup + s.unused
  {
    UnusedInBounded(ps, bytes, idx, used, marks);
    TotalFull(AllDuplicate(used, bytes), idx, marks);
    TotalFull(AllUnused(used, bytes), idx, marks);
  }

  lemma UnusedInUnion(ps: set<Id>, qs: set<Id>, bytes: bool, idx: seq<Entry>, marks: seq<bool>)
    requires |marks| == |idx| && ps !! qs
    ensures Total(UnusedIn(ps + qs, bytes), idx, marks)
         == Total(UnusedIn(ps, bytes), idx, marks) + Total(UnusedIn(qs, bytes), idx, marks)
  {
    TotalSplit(UnusedIn(ps + qs, bytes), UnusedIn(ps, bytes), UnusedIn(qs, bytes), idx, marks);
  }

  /** The candidates that are sorted: small packs only join when there are many. */
  method Candidates(c: Classified) returns (cands: seq<Candidate>, keep: nat)
    requires DistinctIds(c.small + c.large)
    ensures DistinctIds(cands) && forall x :: x in cands ==> x in c.small + c.large
    ensures Ids(cands) == Ids(c.large) + if |Ids(c.small)| < MIN_SMALL then {} else Ids(c.small)
    ensures keep + |cands| == c.stats.keep + |c.small + c.large|
  {
    DistinctParts(c.small, c.large);
    DistinctCount(c.small);
    SwapDistinct(c.small, c.large);
    if |c.small| < MIN_SMALL {
      cands, keep := c.large, c.stats.keep + |c.small|;
    } else {
      cands, keep := c.large + c.small, c.stats.keep;
    }
  }

  lemma DistinctParts(s: seq<Candidate>, t: seq<Candidate>)
    requires DistinctIds(s + t)
    ensures DistinctIds(s) && DistinctIds(t)
    ensures forall x :: x in t ==> x in s + t
  {
    var u := s + t;
    forall i, j | 0 <= i < j < |s|
      ensures s[i].id != s[j].id
    {
      assert u[i] == s[i] && u[j] == s[j];
    }
    forall i, j | 0 <= i < j < |t|
      ensures t[i].id != t[j].id
    {
      assert u[|s| + i] == t[i] && u[|s| + j] == t[j];
    }
  }

  lemma SwapDistinct(s: seq<Candidate>, t: seq<Candidate>)
    requires DistinctIds(s + t)
    ensures DistinctIds(t + s) && Ids(t + s) == Ids(s) + Ids(t)
    ensures forall x :: x in t + s <==> x in s + t
  {
    var u, v := s + t, t + s;
    forall i, j | 0 <= i < j < |v|
      ensures v[i].id != v[j].id
    {
      var i', j' := if i < |t| then |s| + i else i - |t|, if j < |t| then |s| + j else j - |t|;
      assert v[i] == u[i'] && v[j] == u[j'];
    }
  }

  /** The limits of the loop over the candidates, given what goes with removed packs. */
  function LimitsFor(cfg: Config, opts: Options, bytes: BlobStats, removed: nat): Limits {
    Limits(bytes.unused - removed, opts.maxUnusedBytes(bytes.used), opts.maxRepackBytes, TargetPackSize(cfg, opts))
  }

  /** The sets, the order and the counters of a plan that was decided on. */
  ghost predicate DecidedPlan(cfg: Config, opts: Options, files: seq<File>, packs: map<Id, PackInfo>, bytes: BlobStats,
                              r: DecideResult, order: seq<Candidate>)
    requires r.Decided?
  {
    && PlanFits(cfg, opts, packs, files, r.plan)
    && CandidateOrder(cfg, opts, packs, files, order)
    && PacksCounted(packs, files, r.packs, r.unref)
    && (var chosen := ChooseAll(LimitsFor(cfg, opts, bytes, r.bytes.remove), 0, order);
        r.plan.repack == chosen.repack && r.bytes.repack == chosen.bytes && r.blobs.repack == chosen.blobs)
    && r.packs.keep + r.packs.repack + r.packs.remove == r.packs.used + r.packs.unused + r.packs.partlyUsed
    && r.packs.repack == |r.plan.repack| && r.packs.remove == |r.plan.remove| && r.packs.unref == |r.plan.removeFirst|
  }

  /** What removing and repacking accounts for. */
  ghost predicate DecidedStats(idx: seq<Entry>, marks: seq<bool>, r: DecideResult)
    requires r.Decided? && |marks| == |idx|
  {
    && r.bytes.remove == Total(UnusedIn(r.plan.remove + r.plan.ignore, true), idx, marks)
    && r.blobs.remove == Total(UnusedIn(r.plan.remove + r.plan.ignore, false), idx, marks)
    && r.bytes.repackrm == Total(UnusedIn(r.plan.repack, true), idx, marks)
    && r.blobs.repackrm == Total(UnusedIn(r.plan.repack, false), idx, marks)
  }

  ghost function Needed(files: seq<File>, packs: map<Id, PackInfo>): set<Id> {
    set p | p in packs.Keys - Listed(files) && packs[p].usedBlobs > 0
  }

  method DecidePackAction(cfg: Config, opts: Options, files: seq<File>, packs: map<Id, PackInfo>, bytes: BlobStats,
                          ghost idx: seq<Entry>, ghost used: set<Handle>, ghost marks: seq<bool>)
    returns (r: DecideResult, ghost order: seq<Candidate>)
    requires ListedOnce(files) && InfosFrom(packs, idx, used, marks)
    requires bytes == StatsOf(idx, used, marks, true)
    ensures r.SizeNotMatching? <==> exists f :: f in files && Mismatch(packs, f)
    ensures r.SizeNotMatching? ==> exists f :: f in files && Mismatch(packs, f) && f.id == r.id
    ensures r.PacksMissing? <==> !r.SizeNotMatching? && Needed(files, packs) != {}
    ensures r.PacksMissing? ==> r.ids == Needed(files, packs)
    ensures r.Decided? ==> DecidedPlan(cfg, opts, files, packs, bytes, r, order)
    ensures r.Decided? ==> DecidedStats(idx, marks, r)
  {
    hide DecidedPlan, DecidedStats, InfosFrom, StatsOf;
    order := [];
    var bad, c := ClassifyPacks(cfg, opts, files, packs, idx, used, marks);
    if bad.Some? {
      return SizeNotMatching(bad.value), order;
    }
    var ignore, needed, blobsRemove, bytesRemove := MissingPacks(cfg, opts, files, packs, c, idx, used, marks);
    if needed != {} {
      return PacksMissing(needed), order;
    }
    r, order := FinishPlan(cfg, opts, files, packs, bytes, c, ignore, blobsRemove, bytesRemove, idx, used, marks);
  }

  lemma FinishedPlanFits(cfg: Config, opts: Options, files: seq<File>, packs: map<Id, PackInfo>,
                         c: Classified, plan: Plan)
    requires SetsUpTo(cfg, opts, packs, files, c) && Needed(files, packs) == {}
    requires plan.removeFirst == c.removeFirst && plan.remove == c.remove && plan.ignore == packs.Keys - Listed(files)
    requires forall p :: p in plan.repack ==> p in packs && p in Listed(files) && packs[p].usedBlobs > 0
    ensures PlanFits(cfg, opts, packs, files, plan)
  {
    assert forall p :: p in plan.ignore ==> p !in Needed(files, packs);
  }

  method FinishPlan(cfg: Config, opts: Options, ghost files: seq<File>, packs: map<Id, PackInfo>, bytes: BlobStats,
                    c: Classified, ignore: set<Id>, blobsRemove: nat, bytesRemove: nat,
                    ghost idx: seq<Entry>, ghost used: set<Handle>, ghost marks: seq<bool>)
    returns (r: DecideResult, ghost order: seq<Candidate>)
    requires InfosFrom(packs, idx, used, marks) && ClassifiedUpTo(cfg, opts, packs, files, c)
    requires Needed(files, packs) == {} && ignore == packs.Keys - Listed(files)
    requires blobsRemove == Total(UnusedIn(c.remove + ignore, false), idx, marks)
    requires bytesRemove == Total(UnusedIn(c.remove + ignore, true), idx, marks)
    ensures r.Decided?
    ensures DecidedPlan(cfg, opts, files, packs, bytes, r, order)
    ensures DecidedStats(idx, marks, r)
  {
    hide Total, CandidateOrder, ChooseAll, PlanFits, InfosFrom, Worth, CandidatesOk, DistinctIds, SetsUpTo, Needed,
      Mismatch, Listed, WithUse, UnrefBytes;
    var lim := LimitsFor(cfg, opts, bytes, bytesRemove);
    var acc;
    acc, order := RepackWithin(lim, c, cfg, opts, files, packs, idx, used, marks);
    var plan := Plan(c.removeFirst, c.remove, acc.repack, ignore);
    FinishedPlanFits(cfg, opts, files, packs, c, plan);
    var stats := c.stats.(unref := |c.removeFirst|, keep := acc.keep, repack := |acc.repack|, remove := |c.remove|);
    r := Decided(plan, stats, ActionStats(blobsRemove, acc.blobs, acc.blobsRm),
                 ActionStats(bytesRemove, acc.bytes, acc.bytesRm), c.unref);
  }

  /** At this point the packs that were not listed are the missing ones. */
  method MissingPacks(cfg: Config, opts: Options, files: seq<File>, packs: map<Id, PackInfo>, c: Classified,
                      ghost idx: seq<Entry>, ghost used: set<Handle>, ghost marks: seq<bool>)
    returns (ignore: set<Id>, needed: set<Id>, blobs: nat, bytes: nat)
    requires InfosFrom(packs, idx, used, marks)
    requires SetsUpTo(cfg, opts, packs, files, c) && RemovalCounted(c, idx, marks)
    ensures needed == Needed(files, packs)
    ensures ignore == packs.Keys - Listed(files) - needed
    ensures blobs == Total(UnusedIn(c.remove + ignore, false), idx, marks)
    ensures bytes == Total(UnusedIn(c.remove + ignore, true), idx, marks)
  {
    var listed := set f | f in files :: f.id;
    var missing := map p | p in packs && p !in listed :: packs[p];
    assert missing.Keys == packs.Keys - Listed(files);
    assert c.remove <= Listed(files) by {
      forall p | p in c.remove
        ensures p in Listed(files)
      {
        var f :| f in files && f.id == p;
      }
    }
    ignore, needed, blobs, bytes := ForgetMissing(missing, c.blobsRemove, c.bytesRemove, c.remove, idx, used, marks);
  }

  method RepackWithin(lim: Limits, c: Classified, cfg: Config, opts: Options, ghost files: seq<File>,
                      packs: map<Id, PackInfo>, ghost idx: seq<Entry>, ghost used: set<Handle>, ghost marks: seq<bool>)
    returns (acc: Chosen, ghost order: seq<Candidate>)
    requires InfosFrom(packs, idx, used, marks) && ClassifiedUpTo(cfg, opts, packs, files, c)
    requires lim.target == TargetPackSize(cfg, opts)
    ensures CandidateOrder(cfg, opts, packs, files, order)
    ensures var chosen := ChooseAll(lim, 0, order);
      acc.repack == chosen.repack && acc.bytes == chosen.bytes && acc.blobs == chosen.blobs
    ensures forall p :: p in acc.repack ==> p in packs && p in Listed(files) && packs[p].usedBlobs > 0
    ensures acc.keep + |acc.repack| == c.stats.keep + |c.small + c.large|
    ensures acc.blobsRm == Total(UnusedIn(acc.repack, false), idx, marks)
    ensures acc.bytesRm == Total(UnusedIn(acc.repack, true), idx, marks)
  {
    var cands, keep := Candidates(c);
    forall x | x in cands
      ensures x.info.usedSize > 0
    {
      NeededHasHeader(packs, idx, used, marks, x.id);
    }
    acc, order := ChooseRepack(lim, keep, cands);
    PermutedCandidates(cfg, opts, packs, cands, order);
    ChosenFacts(lim, keep, order, packs, idx, used, marks);
    RepackFits(cfg, opts, packs, files, order, acc.repack);
  }

  lemma RepackFits(cfg: Config, opts: Options, packs: map<Id, PackInfo>, files: seq<File>, order: seq<Candidate>,
                   repack: set<Id>)
    requires CandidatesOk(cfg, opts, packs, order) && repack <= Ids(order)
    requires var small := WithAction(cfg, opts, packs, files, RepackIfManySmall);
      Ids(order) == WithAction(cfg, opts, packs, files, RepackCandidate) + if |small| < MIN_SMALL then {} else small
    ensures forall p :: p in repack ==> p in packs && p in Listed(files) && packs[p].usedBlobs > 0
  {
    forall p | p in repack
      ensures p in packs && p in Listed(files) && packs[p].usedBlobs > 0
    {
      var c :| c in order && c.id == p;
    }
  }

  lemma {:induction false} KeepIsOffset(lim: Limits, keep: nat, cs: seq<Candidate>)
    ensures var a, b := ChooseAll(lim, 0, cs), ChooseAll(lim, keep, cs);
      b == a.(keep := a.keep + keep)
  {
    if cs != [] {
      KeepIsOffset(lim, keep, cs[..|cs| - 1]);
    }
  }

  lemma ChosenFacts(lim: Limits, keep: nat, order: seq<Candidate>, packs: map<Id, PackInfo>,
                    idx: seq<Entry>, used: set<Handle>, marks: seq<bool>)
    requires InfosFrom(packs, idx, used, marks) && DistinctIds(order)
    requires forall c :: c in order ==> c.id in packs && c.info == packs[c.id]
    ensures var r := ChooseAll(lim, keep, order);
      && r.repack == ChooseAll(lim, 0, order).repack && r.bytes == ChooseAll(lim, 0, order).bytes
      && r.blobs == ChooseAll(lim, 0, order).blobs
      && r.repack <= Ids(order)
      && r.keep + |r.repack| == keep + |order|
      && r.blobsRm == Total(UnusedIn(r.repack, false), idx, marks)
      && r.bytesRm == Total(UnusedIn(r.repack, true), idx, marks)
  {
    KeepIsOffset(lim, keep, order);
    ChosenAreCandidates(lim, keep, order);
    ChoicesCounted(lim, keep, order);
    RepackRmIsUnused(lim, keep, order, packs, idx, used, marks);
  }

  /** The plan's sets have no pack in common and together are the packs that are not kept. */
  lemma PlanPartitions(cfg: Config, opts: Options, packs: map<Id, PackInfo>, files: seq<File>, plan: Plan)
    requires PlanFits(cfg, opts, packs, files, plan)
    ensures plan.removeFirst !! plan.remove !! plan.repack !! plan.ignore
    ensures plan.remove + plan.repack + plan.ignore <= packs.Keys
    ensures plan.removeFirst + plan.remove + plan.repack <= Listed(files)
  {
    forall p | p in plan.remove
      ensures p in packs && packs[p].usedBlobs == 0
    {
      var f :| f in files && f.id == p && f.id in packs && ActionFor(cfg, opts, packs[f.id], f.size) == Remove;
    }
  }

  /** Every indexed pack that is listed is of one use. */
  lemma UseMember(packs: map<Id, PackInfo>, files: seq<File>, u: Use, p: Id)
    ensures p in WithUse(packs, files, u) <==> p in packs.Keys * Listed(files) && UseOf(packs[p]) == u
  {
    if p in Listed(files) {
      var f :| f in files && f.id == p;
    }
  }

  lemma UsesPartition(packs: map<Id, PackInfo>, files: seq<File>)
    ensures |WithUse(packs, files, UsedPack)| + |WithUse(packs, files, UnusedPack)| +
      |WithUse(packs, files, PartlyUsedPack)|
         == |packs.Keys * Listed(files)|
  {
    hide WithUse;
    var a, b, c := WithUse(packs, files, UsedPack), WithUse(packs, files, UnusedPack),
      WithUse(packs, files, PartlyUsedPack);
    forall p
      ensures p in a <==> p in packs.Keys * Listed(files) && UseOf(packs[p]) == UsedPack
      ensures p in b <==> p in packs.Keys * Listed(files) && UseOf(packs[p]) == UnusedPack
      ensures p in c <==> p in packs.Keys * Listed(files) && UseOf(packs[p]) == PartlyUsedPack
    {
      UseMember(packs, files, UsedPack, p);
      UseMember(packs, files, UnusedPack, p);
      UseMember(packs, files, PartlyUsedPack, p);
    }
    hide UseOf;
    assert a !! b && (a + b) !! c && a + b + c == packs.Keys * Listed(files);
    assert |a + b| == |a| + |b|;
  }

  /** Kept, repacked and removed packs are all the indexed ones that are listed; nothing is
      repacked or fewer bytes than the limit; and removed and repacked unused bytes stay
      within the unused bytes and copies not picked. */
  lemma PlanConserves(cfg: Config, opts: Options, packs: map<Id, PackInfo>, files: seq<File>,
                      idx: seq<Entry>, used: set<Handle>, marks: seq<bool>, r: DecideResult, order: seq<Candidate>)
    requires |marks| == |idx| && r.Decided?
    requires DecidedPlan(cfg, opts, files, packs, StatsOf(idx, used, marks, true), r, order) &&
      DecidedStats(idx, marks, r)
    ensures r.packs.used + r.packs.unused + r.packs.partlyUsed == |packs.Keys * Listed(files)|
    ensures r.packs.keep + r.packs.repack + r.packs.remove == |packs.Keys * Listed(files)|
    ensures (r.plan.repack == {} && r.bytes.repack == 0) || r.bytes.repack < opts.maxRepackBytes
    ensures var s := StatsOf(idx, used, marks, true); r.bytes.remove + r.bytes.repackrm <= s.unused + s.dup
    ensures var s := StatsOf(idx, used, marks, false); r.blobs.remove + r.blobs.repackrm <= s.unused + s.dup
  {
    hide Total, StatsOf, WithUse, CandidateOrder, ChooseAll;
    UsesPartition(packs, files);
    RepackSizeLimited(LimitsFor(cfg, opts, StatsOf(idx, used, marks, true), r.bytes.remove), 0, order);
    PlanPartitions(cfg, opts, packs, files, r.plan);
    forall bytes: bool
      ensures var s := StatsOf(idx, used, marks, bytes);
        Total(UnusedIn(r.plan.remove + r.plan.ignore, bytes), idx, marks) +
          Total(UnusedIn(r.plan.repack, bytes), idx, marks)
        <= s.unused + s.dup
    {
      UnusedInUnion(r.plan.remove + r.plan.ignore, r.plan.repack, bytes, idx, marks);
      RemovalBounded(r.plan.remove + r.plan.ignore + r.plan.repack, bytes, idx, used, marks);
    }
  }
}
