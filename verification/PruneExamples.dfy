/** Two repositories for which planning a prune does something unexpected. */
module PruneExamples {
  import opened Repository
  import opened PruneSelection
  import opened PruneDecision
  import opened PrunePlanning
  import opened PruneTolerance

  // A target size of 40 bytes for packs.
  const CONFIG: Config := Config(2, 1000)

  function Tolerate(bytes: nat): Options {
    Options(_ => bytes, 1000, false, false, false)
  }

  function Data(id: Id, pack: Id, length: nat): Entry {
    Entry(Handle(id, DataBlob), pack, length, true)
  }

  // ----- An index of four entries -----

  lemma NothingTotal(t: Tally, idx: seq<Entry>, m: seq<bool>)
    requires |idx| == |m|
    ensures Total(t, idx[..0], m[..0]) == 0
  {
  }

  lemma FourTotal(t: Tally, idx: seq<Entry>, m: seq<bool>)
    requires |idx| == |m| == 4
    ensures Total(t, idx, m) == Worth(t, idx[0], m[0]) + Worth(t, idx[1], m[1]) + Worth(t, idx[2], m[2]) +
      Worth(t, idx[3], m[3])
  {
    hide Worth, Total;
    assert Total(t, idx[..2], m[..2]) == Worth(t, idx[0], m[0]) + Worth(t, idx[1], m[1]) by {
      NothingTotal(t, idx, m);
      TotalSnoc(t, idx, m, 0);
      TotalSnoc(t, idx, m, 1);
    }
    TotalSnoc(t, idx, m, 2);
    TotalSnoc(t, idx, m, 3);
    TotalFull(t, idx, m);
  }

  function Here(e: Entry, h: Handle): nat {
    if e.h == h then 1 else 0
  }

  lemma FourCopies(idx: seq<Entry>, h: Handle)
    requires |idx| == 4
    ensures Copies(idx[..0], h) == 0 && Copies(idx[..1], h) == Here(idx[0], h)
    ensures Copies(idx[..2], h) == Here(idx[0], h) + Here(idx[1], h)
    ensures Copies(idx[..3], h) == Here(idx[0], h) + Here(idx[1], h) + Here(idx[2], h)
    ensures Copies(idx, h) == Here(idx[0], h) + Here(idx[1], h) + Here(idx[2], h) + Here(idx[3], h)
  {
    assert idx[..4] == idx;
    CopiesSnoc(idx, h, 3);
    CopiesSnoc(idx, h, 2);
    CopiesSnoc(idx, h, 1);
    CopiesSnoc(idx, h, 0);
  }

  function BytesIn(e: Entry, p: Id, onlyHdr: bool): nat {
    if e.pack == p then EntrySize(e) + (if onlyHdr then 0 else e.length) else 0
  }

  lemma PackSizeSnoc(idx: seq<Entry>, i: nat, p: Id, onlyHdr: bool)
    requires i < |idx|
    ensures PackSize(idx[..i + 1], p, onlyHdr) == PackSize(idx[..i], p, onlyHdr) + BytesIn(idx[i], p, onlyHdr)
  {
    assert idx[..i + 1][..i] == idx[..i];
  }

  lemma FourSize(idx: seq<Entry>, p: Id, onlyHdr: bool)
    requires |idx| == 4
    ensures PackSize(idx, p, onlyHdr) == HEADER_SIZE + BytesIn(idx[0], p, onlyHdr) + BytesIn(idx[1], p, onlyHdr)
                                         + BytesIn(idx[2], p, onlyHdr) + BytesIn(idx[3], p, onlyHdr)
  {
    hide BytesIn;
    assert idx[..4] == idx && idx[..0] == [];
    PackSizeSnoc(idx, 3, p, onlyHdr);
    PackSizeSnoc(idx, 2, p, onlyHdr);
    PackSizeSnoc(idx, 1, p, onlyHdr);
    PackSizeSnoc(idx, 0, p, onlyHdr);
  }

  ghost predicate OnlyData(idx: seq<Entry>) {
    forall e :: e in idx ==> e.h.tpe == DataBlob && e.compressed
  }

  lemma {:induction false} DataType(idx: seq<Entry>, p: Id)
    requires OnlyData(idx)
    ensures TypeOf(idx, p) == if p in Packs(idx) then DataBlob else NumBlobTypes
  {
    if idx != [] {
      var n := |idx| - 1;
      assert idx == idx[..n] + [idx[n]];
      assert forall e :: e in idx[..n] ==> e in idx;
      DataType(idx[..n], p);
    }
  }

  /** What is known of a pack with data blobs only. */
  lemma DataInfo(idx: seq<Entry>, used: set<Handle>, marks: seq<bool>, p: Id)
    requires |marks| == |idx| && OnlyData(idx) && p in Packs(idx)
    ensures InfoOf(idx, used, marks, p) == PackInfo(
      Total(UsedBlobs(p), idx, marks), Total(UnusedBlobs(p), idx, marks),
      Total(DuplicateBlobs(p, Duplicates(idx, used)), idx, marks),
      PackSize(idx, p, true) + Total(UsedBytes(p), idx, marks), Total(UnusedBytes(p), idx, marks), DataBlob, false)
  {
    hide Total, PackSize, Duplicates;
    assert idx[..|idx|] == idx && marks[..|idx|] == marks;
    DataType(idx, p);
    assert forall j :: 0 <= j < |idx| ==> idx[j] in idx;
  }

  lemma StatsAll(idx: seq<Entry>, used: set<Handle>, marks: seq<bool>)
    requires |marks| == |idx|
    ensures StatsOf(idx, used, marks, true) == BlobStats(
      Total(AllUsed(true), idx, marks), Total(AllDuplicate(used, true), idx, marks),
      Total(AllUnused(used, true), idx, marks))
  {
    hide Total;
    assert idx[..|idx|] == idx && marks[..|idx|] == marks;
  }

  lemma OneCandidate(order: seq<Candidate>, p: Id)
    requires DistinctIds(order) && Ids(order) == {p}
    ensures |order| == 1 && order[0].id == p
  {
    DistinctCount(order);
    assert order[0].id in Ids(order);
  }

  lemma ChooseOne(lim: Limits, order: seq<Candidate>)
    requires |order| == 1
    ensures ChooseAll(lim, 0, order) == Choose(lim, Chosen({}, 0, 0, 0, 0, 0), order[0])
    ensures ChooseAllExact(lim, 0, order)
         == var acc := Chosen({}, 0, 0, 0, 0, 0); if TakesExact(lim, acc, order[0]) then Add(acc, order[0])
           else acc.(keep := 1)
  {
    assert order[..0] == [];
  }

  // ----- A copy in a missing pack -----

  // Pack 1 is indexed but missing; pack 2 is there.  Both hold blob 7 and one unused blob.
  const LOST: Handle := Handle(7, DataBlob)
  const LOST_INDEX: seq<Entry> := [Data(7, 1, 10), Data(8, 1, 10), Data(7, 2, 10), Data(9, 2, 10)]
  const LOST_FILES: seq<File> := [File(2, 138)]
  const LOST_MARKS: seq<bool> := [false, false, true, false]

  /** Forget pack 1, repack pack 2. */
  const LOST_PLAN: Plan := Plan({}, {}, {2}, {1})

  /** The copy in the pack that is there is picked. */
  lemma LostSelection()
    ensures Selected(LOST_INDEX, {LOST}) == LOST_MARKS
    ensures Duplicates(LOST_INDEX, {LOST}) == {LOST}
  {
    var idx, used := LOST_INDEX, {LOST};
    FourCopies(idx, LOST);
    FourCopies(idx, Handle(8, DataBlob));
    FourCopies(idx, Handle(9, DataBlob));
    assert Duplicates(idx, used) == used;
    var none := [false, false, false, false];
    FourTotal(Picked(LOST), idx, none);
    FourTotal(UsedBlobs(1), idx, none);
    FourTotal(DuplicateBlobs(1, used), idx, none);
    FourTotal(UnusedBlobs(1), idx, none);
    hide Total, Copies, Duplicates;
    assert Marks(idx, used, 0) == none;
    assert !Picks(idx, used, none, 0);
    assert Marks(idx, used, 1) == none;
    assert !Picks(idx, used, none, 1);
    assert Marks(idx, used, 2) == none;
    assert Picks(idx, used, none, 2);
    assert Marks(idx, used, 3) == none[2 := true];
    assert !Picks(idx, used, none[2 := true], 3);
  }

  lemma LostSums()
    ensures var idx, m := LOST_INDEX, LOST_MARKS;
      && Total(UsedBlobs(1), idx, m) == 0 && Total(UsedBlobs(2), idx, m) == 1 && Total(UnusedBlobs(2), idx, m) == 1
      && Total(DuplicateBlobs(2, {LOST}), idx, m) == 1 && Total(UsedBytes(2), idx, m) == 10 &&
        Total(UnusedBytes(2), idx, m) == 10
      && PackSize(idx, 2, true) == 118
  {
    var idx, m := LOST_INDEX, LOST_MARKS;
    FourTotal(UsedBlobs(1), idx, m);
    FourTotal(UsedBlobs(2), idx, m);
    FourTotal(UnusedBlobs(2), idx, m);
    FourTotal(DuplicateBlobs(2, {LOST}), idx, m);
    FourTotal(UsedBytes(2), idx, m);
    FourTotal(UnusedBytes(2), idx, m);
    FourSize(idx, 2, true);
    hide Total, PackSize;
  }

  lemma LostInfos(packs: map<Id, PackInfo>)
    requires InfosFrom(packs, LOST_INDEX, {LOST}, LOST_MARKS)
    ensures packs.Keys == {1, 2}
    ensures packs[1].usedBlobs == 0
    ensures packs[2] == PackInfo(1, 1, 1, 128, 10, DataBlob, false)
  {
    hide Total, PackSize, Duplicates, InfoOf, Copies;
    var idx, used, m := LOST_INDEX, {LOST}, LOST_MARKS;
    LostSelection();
    LostSums();
    assert idx[0] in idx && idx[2] in idx;
    assert packs.Keys == {1, 2};
    DataInfo(idx, used, m, 1);
    DataInfo(idx, used, m, 2);
  }

  lemma LostActions(packs: map<Id, PackInfo>, opts: Options)
    requires packs.Keys == {1, 2} && packs[2] == PackInfo(1, 1, 1, 128, 10, DataBlob, false) && opts == Tolerate(0)
    ensures Listed(LOST_FILES) == {2}
    ensures WithAction(CONFIG, opts, packs, LOST_FILES, Remove) == {}
    ensures WithAction(CONFIG, opts, packs, LOST_FILES, RepackIfManySmall) == {}
    ensures WithAction(CONFIG, opts, packs, LOST_FILES, RepackCandidate) == {2}
  {
    assert LOST_FILES[0] in LOST_FILES;
    assert ActionFor(CONFIG, opts, packs[2], 138) == RepackCandidate;
  }

  lemma LostBytes()
    ensures StatsOf(LOST_INDEX, {LOST}, LOST_MARKS, true).unused == 20
    ensures Total(UnusedIn({1}, true), LOST_INDEX, LOST_MARKS) == 20
  {
    StatsAll(LOST_INDEX, {LOST}, LOST_MARKS);
    FourTotal(AllUnused({LOST}, true), LOST_INDEX, LOST_MARKS);
    FourTotal(UnusedIn({1}, true), LOST_INDEX, LOST_MARKS);
    hide Total;
  }

  /** Planning decides on just this plan. */
  lemma LostPlanDecided(packs: map<Id, PackInfo>, d: DecideResult, order: seq<Candidate>)
    requires InfosFrom(packs, LOST_INDEX, {LOST}, LOST_MARKS) && d.Decided?
    requires DecidedPlan(CONFIG, Tolerate(0), LOST_FILES, packs,
      StatsOf(LOST_INDEX, {LOST}, LOST_MARKS, true), d, order)
    requires DecidedStats(LOST_INDEX, LOST_MARKS, d)
    ensures d.plan == LOST_PLAN
  {
    hide Total, StatsOf, InfoOf, WithUse, UnrefBytes, WithAction, Listed, ChooseAll, Ids;
    LostInfos(packs);
    LostActions(packs, Tolerate(0));
    LostBytes();
    OneCandidate(order, 2);
    assert order[0] in order;
    assert d.plan.remove + d.plan.ignore == {1};
    ChooseOne(LimitsFor(CONFIG, Tolerate(0), StatsOf(LOST_INDEX, {LOST}, LOST_MARKS, true), 20), order);
  }

  lemma LostFilesFit(packs: map<Id, PackInfo>)
    requires InfosFrom(packs, LOST_INDEX, {LOST}, LOST_MARKS)
    ensures Needed(LOST_FILES, packs) == {} && forall f :: f in LOST_FILES ==> !Mismatch(packs, f)
  {
    LostInfos(packs);
    LostActions(packs, Tolerate(0));
  }

  lemma LostIsLost()
    ensures KeepBlobs(LOST_INDEX, {LOST}, LOST_PLAN) == {} && !Survives(LOST_INDEX, Planned(LOST_PLAN, {}), LOST)
  {
    assert LOST_INDEX[0].h == LOST && LOST_INDEX[0] in LOST_INDEX;
    assert LOST_INDEX[0].pack !in LOST_PLAN.remove + LOST_PLAN.repack;
  }

  /** Planning this repository succeeds, and the used blob is then in no pack that stays and
      not among the blobs to keep: its only copy that is there is repacked without it. */
  method CopyInMissingPackLosesBlob() returns (r: PlanResult)
    ensures r == Planned(LOST_PLAN, {})
    ensures !Survives(LOST_INDEX, r, LOST)
  {
    hide DecidedPlan, DecidedStats, SelectionFor, InfosFrom, Mismatch, Survives, KeepBlobs, PlanFits;
    assert LOST_INDEX[0].h == LOST && LOST_INDEX[0] in LOST_INDEX;
    assert ListedOnce(LOST_FILES) && {LOST} <= Handles(LOST_INDEX);
    LostSelection();
    var stats;
    ghost var packs, order;
    r, stats, packs, order := PlanPrune(2, CONFIG, Tolerate(0), LOST_INDEX, LOST_FILES, Some({LOST}));
    Infos(LOST_INDEX, {LOST}, packs, LOST_MARKS);
    if r.Planned? {
      LostPlanDecided(packs, stats.value, order);
      LostIsLost();
    } else {
      assert r == Failed(r.error);
      assert r.error != TooFewConnections && r.error != VersionTooOld && r.error != UsedBlobsUnknown;
      assert r.error != ErrIndexIncomplete;
      if r.error in {ErrSizeNotMatching, ErrPacksMissing} {
        LostFilesFit(packs);
      }
    }
  }

  lemma Infos(idx: seq<Entry>, used: set<Handle>, packs: map<Id, PackInfo>, marks: seq<bool>)
    ensures SelectionFor(idx, used, packs, marks) ==> InfosFrom(packs, idx, used, marks)
  {
  }

  // ----- More goes than is called unused -----

  // Packs 1 and 2 hold a copy of blob 7 each; pack 3 holds blob 8 and ten unused bytes.
  const COPIED: Handle := Handle(7, DataBlob)
  const OTHER: Handle := Handle(8, DataBlob)
  const WRAP_INDEX: seq<Entry> := [Data(7, 1, 100), Data(7, 2, 100), Data(8, 3, 60), Data(9, 3, 10)]
  const WRAP_FILES: seq<File> := [File(1, 177), File(2, 177), File(3, 188)]
  const WRAP_MARKS: seq<bool> := [true, false, true, false]

  /** Remove pack 2 and repack pack 3. */
  const WRAP_PLAN: Plan := Plan({}, {2}, {3}, {})

  /** The copy in pack 1 is picked. */
  lemma WrapSelection()
    ensures Selected(WRAP_INDEX, {COPIED, OTHER}) == WRAP_MARKS
    ensures Duplicates(WRAP_INDEX, {COPIED, OTHER}) == {COPIED}
  {
    var idx, used := WRAP_INDEX, {COPIED, OTHER};
    FourCopies(idx, COPIED);
    FourCopies(idx, OTHER);
    FourCopies(idx, Handle(9, DataBlob));
    assert Duplicates(idx, used) == {COPIED};
    var start := [false, false, true, false];
    FourTotal(Picked(COPIED), idx, start);
    FourTotal(UsedBlobs(1), idx, start);
    FourTotal(DuplicateBlobs(1, {COPIED}), idx, start);
    FourTotal(UnusedBlobs(1), idx, start);
    FourTotal(Picked(COPIED), idx, WRAP_MARKS);
    hide Total, Copies, Duplicates;
    assert Marks(idx, used, 0) == start;
    assert Picks(idx, used, start, 0);
    assert Marks(idx, used, 1) == WRAP_MARKS;
    assert !Picks(idx, used, WRAP_MARKS, 1);
    assert Marks(idx, used, 2) == WRAP_MARKS;
    assert !Picks(idx, used, WRAP_MARKS, 2);
    assert Marks(idx, used, 3) == WRAP_MARKS;
    assert !Picks(idx, used, WRAP_MARKS, 3);
  }

  lemma WrapSums(p: Id)
    requires p in {1, 2, 3}
    ensures var idx, m := WRAP_INDEX, WRAP_MARKS;
      && Total(UsedBlobs(p), idx, m) == (if p == 2 then 0 else 1)
      && Total(UnusedBlobs(p), idx, m) == (if p == 1 then 0 else 1)
      && Total(DuplicateBlobs(p, {COPIED}), idx, m) == (if p == 3 then 0 else 1)
      && Total(UsedBytes(p), idx, m) == (if p == 1 then 100 else if p == 2 then 0 else 60)
      && Total(UnusedBytes(p), idx, m) == (if p == 1 then 0 else if p == 2 then 100 else 10)
      && PackSize(idx, p, true) == (if p == 3 then 118 else 77)
  {
    var idx, m := WRAP_INDEX, WRAP_MARKS;
    FourTotal(UsedBlobs(p), idx, m);
    FourTotal(UnusedBlobs(p), idx, m);
    FourTotal(DuplicateBlobs(p, {COPIED}), idx, m);
    FourTotal(UsedBytes(p), idx, m);
    FourTotal(UnusedBytes(p), idx, m);
    FourSize(idx, p, true);
    hide Total, PackSize;
  }

  ghost predicate WrapPacks(packs: map<Id, PackInfo>) {
    && packs.Keys == {1, 2, 3}
    && packs[1] == PackInfo(1, 0, 1, 177, 0, DataBlob, false)
    && packs[2] == PackInfo(0, 1, 1, 77, 100, DataBlob, false)
    && packs[3] == PackInfo(1, 1, 0, 178, 10, DataBlob, false)
  }

  lemma WrapInfos(packs: map<Id, PackInfo>)
    requires InfosFrom(packs, WRAP_INDEX, {COPIED, OTHER}, WRAP_MARKS)
    ensures WrapPacks(packs)
  {
    hide Total, PackSize, Duplicates, InfoOf, Copies;
    var idx, used, m := WRAP_INDEX, {COPIED, OTHER}, WRAP_MARKS;
    WrapSelection();
    assert idx[0] in idx && idx[1] in idx && idx[2] in idx;
    assert packs.Keys == {1, 2, 3};
    forall p | p in packs
      ensures packs[p] == PackInfo(
        Total(UsedBlobs(p), idx, m), Total(UnusedBlobs(p), idx, m), Total(DuplicateBlobs(p, {COPIED}), idx, m),
        PackSize(idx, p, true) + Total(UsedBytes(p), idx, m), Total(UnusedBytes(p), idx, m), DataBlob, false)
    {
      DataInfo(idx, used, m, p);
    }
    WrapSums(1);
    WrapSums(2);
    WrapSums(3);
  }

  lemma WrapActions(packs: map<Id, PackInfo>, opts: Options)
    requires WrapPacks(packs) && opts == Tolerate(20)
    ensures Listed(WRAP_FILES) == {1, 2, 3}
    ensures WithAction(CONFIG, opts, packs, WRAP_FILES, Remove) == {2}
    ensures WithAction(CONFIG, opts, packs, WRAP_FILES, RepackIfManySmall) == {}
    ensures WithAction(CONFIG, opts, packs, WRAP_FILES, RepackCandidate) == {3}
  {
    assert WRAP_FILES[0] in WRAP_FILES && WRAP_FILES[1] in WRAP_FILES && WRAP_FILES[2] in WRAP_FILES;
    assert ActionFor(CONFIG, opts, packs[1], 177) == Keep;
    assert ActionFor(CONFIG, opts, packs[2], 177) == Remove;
    assert ActionFor(CONFIG, opts, packs[3], 188) == RepackCandidate;
  }

  lemma WrapBytes()
    ensures var s := StatsOf(WRAP_INDEX, {COPIED, OTHER}, WRAP_MARKS, true);
      s == BlobStats(160, 100, 10)
    ensures Total(UnusedIn({2}, true), WRAP_INDEX, WRAP_MARKS) == 100
  {
    var idx, used, m := WRAP_INDEX, {COPIED, OTHER}, WRAP_MARKS;
    StatsAll(idx, used, m);
    FourTotal(AllUsed(true), idx, m);
    FourTotal(AllDuplicate(used, true), idx, m);
    FourTotal(AllUnused(used, true), idx, m);
    FourTotal(UnusedIn({2}, true), idx, m);
    hide Total;
  }

  /** Once pack 2 is removed, ten unused bytes are left and twenty are tolerated; yet planning
      decides to repack pack 3, which is large enough and of which that is not required. */
  lemma WrapPlanDecided(packs: map<Id, PackInfo>, d: DecideResult, order: seq<Candidate>)
    requires InfosFrom(packs, WRAP_INDEX, {COPIED, OTHER}, WRAP_MARKS) && d.Decided?
    requires DecidedPlan(CONFIG, Tolerate(20), WRAP_FILES, packs,
                         StatsOf(WRAP_INDEX, {COPIED, OTHER}, WRAP_MARKS, true), d, order)
    requires DecidedStats(WRAP_INDEX, WRAP_MARKS, d)
    ensures d.plan == WRAP_PLAN
    ensures var s := StatsOf(WRAP_INDEX, {COPIED, OTHER}, WRAP_MARKS, true);
      var lim := LimitsFor(CONFIG, Tolerate(20), s, d.bytes.remove);
      && s.unused + s.dup - d.bytes.remove == 10 < Tolerate(20).maxUnusedBytes(s.used)
      && ChooseAllExact(lim, 0, order).repack == {} && SomeOverlooked(lim, 0, order)
      && |order| == 1 && order[0].id == 3 && Size(order[0].info) >= lim.target && !Mandatory(order[0])
  {
    hide Total, StatsOf, InfoOf, WithUse, UnrefBytes, WithAction, Listed, ChooseAll, ChooseAllExact, Ids,
      SomeOverlooked;
    WrapInfos(packs);
    WrapActions(packs, Tolerate(20));
    WrapBytes();
    OneCandidate(order, 3);
    assert order[0] in order;
    assert d.plan.remove + d.plan.ignore == {2};
    WrapChoice(order);
  }

  /** The loop over the only candidate, as it is and as it is meant. */
  lemma WrapChoice(order: seq<Candidate>)
    requires |order| == 1 && order[0] == Candidate(3, PackInfo(1, 1, 0, 178, 10, DataBlob, false), false)
    ensures var lim := LimitsFor(CONFIG, Tolerate(20), BlobStats(160, 100, 10), 100);
      ChooseAll(lim, 0, order).repack == {3} && ChooseAllExact(lim, 0, order).repack == {} &&
        SomeOverlooked(lim, 0, order)
  {
    hide ChooseAll, ChooseAllExact, SomeOverlooked;
    var lim := LimitsFor(CONFIG, Tolerate(20), BlobStats(160, 100, 10), 100);
    ChooseOne(lim, order);
    NothingChosen(lim, order);
  }

  lemma NothingChosen(lim: Limits, order: seq<Candidate>)
    requires |order| == 1 && Overlooked(lim, Chosen({}, 0, 0, 0, 0, 0), order[0])
    ensures SomeOverlooked(lim, 0, order)
  {
    assert order[..0] == [];
    assert Overlooked(lim, ChooseAllExact(lim, 0, order[..0]), order[0]);
  }

  lemma WrapFilesFit(packs: map<Id, PackInfo>)
    requires InfosFrom(packs, WRAP_INDEX, {COPIED, OTHER}, WRAP_MARKS)
    ensures Needed(WRAP_FILES, packs) == {} && forall f :: f in WRAP_FILES ==> !Mismatch(packs, f)
  {
    WrapInfos(packs);
    WrapActions(packs, Tolerate(20));
  }

  /** Planning this repository repacks pack 3, although the tolerance is reached without. */
  method ToleranceMissedByWrapAround() returns (r: PlanResult, stats: Option<DecideResult>)
    ensures r.Planned? && r.plan == WRAP_PLAN && stats.Some? && stats.value.Decided?
    ensures var s := StatsOf(WRAP_INDEX, {COPIED, OTHER}, Selected(WRAP_INDEX, {COPIED, OTHER}), true);
      s.unused + s.dup - stats.value.bytes.remove == 10 < Tolerate(20).maxUnusedBytes(s.used)
  {
    hide DecidedPlan, DecidedStats, SelectionFor, InfosFrom, Mismatch, StatsOf;
    assert ListedOnce(WRAP_FILES) && {COPIED, OTHER} <= Handles(WRAP_INDEX) by {
      assert WRAP_INDEX[0] in WRAP_INDEX && WRAP_INDEX[2] in WRAP_INDEX;
    }
    WrapSelection();
    ghost var packs, order;
    r, stats, packs, order := PlanPrune(2, CONFIG, Tolerate(20), WRAP_INDEX, WRAP_FILES, Some({COPIED, OTHER}));
    Infos(WRAP_INDEX, {COPIED, OTHER}, packs, WRAP_MARKS);
    if r.Planned? {
      WrapPlanDecided(packs, stats.value, order);
    } else {
      assert r == Failed(r.error);
      assert r.error != TooFewConnections && r.error != VersionTooOld && r.error != UsedBlobsUnknown;
      assert r.error != ErrIndexIncomplete;
      if r.error in {ErrSizeNotMatching, ErrPacksMissing} {
        WrapFilesFit(packs);
      }
    }
  }
}
