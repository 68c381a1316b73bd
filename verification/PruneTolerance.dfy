/** Whether repacking stops when the tolerated amount of unused bytes is reached.

    The loop over the candidates compares a difference of unsigned numbers with the tolerance.
    Here the same loop is given with a difference of integers, and it is shown for which
    candidates both choose alike. */
module PruneTolerance {
  import opened Repository
  import opened PruneSelection
  import opened PruneDecision

  /** The unused bytes left are below the tolerance. */
  predicate Reached(lim: Limits, acc: Chosen) {
    lim.waste - acc.bytesRm < lim.maxUnusedAfter
  }

  predicate TakesExact(lim: Limits, acc: Chosen, c: Candidate) {
    && !ReachedRepackSize(lim, acc, c.info)
    && (Mandatory(c) || !(Reached(lim, acc) && Size(c.info) >= lim.target))
  }

  /** The loop as it is meant. */
  function ChooseAllExact(lim: Limits, keep: nat, cs: seq<Candidate>): Chosen {
    if cs == [] then Chosen({}, keep, 0, 0, 0, 0)
    else
      var acc, c := ChooseAllExact(lim, keep, cs[..|cs| - 1]), cs[|cs| - 1];
      if TakesExact(lim, acc, c) then Add(acc, c) else acc.(keep := acc.keep + 1)
  }

  function Add(acc: Chosen, c: Candidate): Chosen {
    Chosen(acc.repack + {c.id}, acc.keep,
      acc.blobs + c.info.unusedBlobs + c.info.usedBlobs, acc.bytes + Size(c.info),
      acc.blobsRm + c.info.unusedBlobs, acc.bytesRm + c.info.unusedSize)
  }

  function UnusedBytesOf(cs: seq<Candidate>): nat {
    if cs == [] then 0 else UnusedBytesOf(cs[..|cs| - 1]) + cs[|cs| - 1].info.unusedSize
  }

  /** All numbers are less than 2^64. */
  predicate InRange(lim: Limits, cs: seq<Candidate>) {
    lim.waste < WORD && lim.maxUnusedAfter < WORD && UnusedBytesOf(cs) - lim.waste < WORD
  }

  /** A candidate that is to be kept because the tolerance is reached, at a point where more
      unused bytes go than the index calls unused. */
  predicate Overlooked(lim: Limits, acc: Chosen, c: Candidate) {
    && !ReachedRepackSize(lim, acc, c.info) && !Mandatory(c) && Size(c.info) >= lim.target
    && var left := lim.waste - acc.bytesRm;
       left < 0 && lim.maxUnusedAfter <= left + WORD
  }

  predicate SomeOverlooked(lim: Limits, keep: nat, cs: seq<Candidate>) {
    exists i :: 0 <= i < |cs| && Overlooked(lim, ChooseAllExact(lim, keep, cs[..i]), cs[i])
  }

  lemma TakesDiffers(lim: Limits, acc: Chosen, c: Candidate)
    requires -(WORD as int) < lim.waste - acc.bytesRm < WORD && lim.maxUnusedAfter < WORD
    ensures Takes(lim, acc, c) != TakesExact(lim, acc, c) <==> Overlooked(lim, acc, c)
    ensures Overlooked(lim, acc, c) ==> Takes(lim, acc, c)
  {
    var left := lim.waste - acc.bytesRm;
    if left >= 0 {
      WrapSmall(left);
    } else {
      WrapSmall(left + WORD);
      assert Wrap(left) == Wrap(left + WORD);
    }
  }

  lemma {:induction false} ExactBounds(lim: Limits, keep: nat, cs: seq<Candidate>)
    ensures var r := ChooseAllExact(lim, keep, cs);
      r.repack <= Ids(cs) && r.bytesRm <= UnusedBytesOf(cs)
  {
    if cs != [] {
      var n := |cs| - 1;
      ExactBounds(lim, keep, cs[..n]);
      assert cs == cs[..n] + [cs[n]];
      IdsSnoc(cs[..n], cs[n]);
    }
  }

  lemma {:induction false} UnusedBytesGrow(cs: seq<Candidate>, i: nat)
    requires i <= |cs|
    ensures UnusedBytesOf(cs[..i]) <= UnusedBytesOf(cs)
  {
    if i < |cs| {
      UnusedBytesGrow(cs[..|cs| - 1], i);
      assert cs[..|cs| - 1][..i] == cs[..i];
    } else {
      assert cs[..i] == cs;
    }
  }

  /** What differs once, differs to the end: no pack is a candidate twice. */
  lemma {:induction false} SameRepackSameChoice(lim: Limits, keep: nat, cs: seq<Candidate>)
    requires DistinctIds(cs) && ChooseAll(lim, keep, cs).repack == ChooseAllExact(lim, keep, cs).repack
    ensures ChooseAll(lim, keep, cs) == ChooseAllExact(lim, keep, cs)
  {
    if cs != [] {
      var n := |cs| - 1;
      var a, b := ChooseAll(lim, keep, cs[..n]), ChooseAllExact(lim, keep, cs[..n]);
      ChosenAreCandidates(lim, keep, cs[..n]);
      ExactBounds(lim, keep, cs[..n]);
      LastIsNew(cs);
      assert a.repack == ChooseAll(lim, keep, cs).repack - {cs[n].id};
      assert b.repack == ChooseAllExact(lim, keep, cs).repack - {cs[n].id};
      SameRepackSameChoice(lim, keep, cs[..n]);
    }
  }

  lemma LastIsNew(cs: seq<Candidate>)
    requires DistinctIds(cs) && cs != []
    ensures DistinctIds(cs[..|cs| - 1]) && cs[|cs| - 1].id !in Ids(cs[..|cs| - 1])
  {
    var n := |cs| - 1;
    forall c | c in cs[..n]
      ensures c.id != cs[n].id
    {
      var i :| 0 <= i < n && cs[..n][i] == c;
      assert cs[i] == c;
    }
  }

  /** The loop chooses as it is meant to exactly if it overlooks no candidate. */
  lemma {:induction false} ChoosesAsMeantIff(lim: Limits, keep: nat, cs: seq<Candidate>)
    requires DistinctIds(cs) && InRange(lim, cs)
    ensures ChooseAll(lim, keep, cs).repack == ChooseAllExact(lim, keep, cs).repack <==> !SomeOverlooked(lim, keep, cs)
    ensures ChooseAll(lim, keep, cs) == ChooseAllExact(lim, keep, cs) <==> !SomeOverlooked(lim, keep, cs)
  {
    if cs != [] {
      var n := |cs| - 1;
      LastIsNew(cs);
      UnusedBytesGrow(cs, n);
      ChoosesAsMeantIff(lim, keep, cs[..n]);
      OverlookedSnoc(lim, keep, cs);
      var acc := ChooseAllExact(lim, keep, cs[..n]);
      ExactBounds(lim, keep, cs[..n]);
      TakesDiffers(lim, acc, cs[n]);
      if ChooseAll(lim, keep, cs).repack == ChooseAllExact(lim, keep, cs).repack {
        SameRepackSameChoice(lim, keep, cs);
        PrefixAgrees(lim, keep, cs);
      }
    }
  }

  lemma PrefixAgrees(lim: Limits, keep: nat, cs: seq<Candidate>)
    requires cs != [] && DistinctIds(cs) && ChooseAll(lim, keep, cs).repack == ChooseAllExact(lim, keep, cs).repack
    ensures ChooseAll(lim, keep, cs[..|cs| - 1]).repack == ChooseAllExact(lim, keep, cs[..|cs| - 1]).repack
  {
    var n := |cs| - 1;
    ChosenAreCandidates(lim, keep, cs[..n]);
    ExactBounds(lim, keep, cs[..n]);
    LastIsNew(cs);
    assert ChooseAll(lim, keep, cs[..n]).repack == ChooseAll(lim, keep, cs).repack - {cs[n].id};
    assert ChooseAllExact(lim, keep, cs[..n]).repack == ChooseAllExact(lim, keep, cs).repack - {cs[n].id};
  }

  lemma OverlookedSnoc(lim: Limits, keep: nat, cs: seq<Candidate>)
    requires cs != []
    ensures var n := |cs| - 1;
      SomeOverlooked(lim, keep, cs)
      <==> SomeOverlooked(lim, keep, cs[..n]) || Overlooked(lim, ChooseAllExact(lim, keep, cs[..n]), cs[n])
  {
    hide Overlooked;
    var n := |cs| - 1;
    assert forall i :: 0 <= i < n ==> cs[..n][..i] == cs[..i] && cs[..n][i] == cs[i];
    if SomeOverlooked(lim, keep, cs[..n]) {
      var i :| 0 <= i < n && Overlooked(lim, ChooseAllExact(lim, keep, cs[..n][..i]), cs[..n][i]);
      assert Overlooked(lim, ChooseAllExact(lim, keep, cs[..i]), cs[i]);
    }
    if SomeOverlooked(lim, keep, cs) {
      var i :| 0 <= i < |cs| && Overlooked(lim, ChooseAllExact(lim, keep, cs[..i]), cs[i]);
      if i < n {
        assert Overlooked(lim, ChooseAllExact(lim, keep, cs[..n][..i]), cs[..n][i]);
      }
    }
  }

  /** With enough unused bytes nothing is overlooked. */
  lemma EnoughUnused(lim: Limits, keep: nat, cs: seq<Candidate>)
    requires UnusedBytesOf(cs) <= lim.waste
    ensures !SomeOverlooked(lim, keep, cs)
  {
    forall i | 0 <= i < |cs|
      ensures !Overlooked(lim, ChooseAllExact(lim, keep, cs[..i]), cs[i])
    {
      ExactBounds(lim, keep, cs[..i]);
      UnusedBytesGrow(cs, i);
    }
  }

  lemma {:induction false} CandidateBytes(cs: seq<Candidate>, idx: seq<Entry>, used: set<Handle>, marks: seq<bool>)
    requires |marks| == |idx| && DistinctIds(cs)
    requires forall c :: c in cs ==> c.info == InfoOf(idx, used, marks, c.id)
    ensures UnusedBytesOf(cs) == Total(UnusedIn(Ids(cs), true), idx, marks)
  {
    if cs == [] {
      UnusedInNone(idx, marks, true);
      assert Ids([]) == {};
    } else {
      var n := |cs| - 1;
      LastIsNew(cs);
      assert cs == cs[..n] + [cs[n]];
      CandidateBytes(cs[..n], idx, used, marks);
      IdsSnoc(cs[..n], cs[n]);
      UnusedInAdd(idx, marks, Ids(cs[..n]), cs[n].id);
      PackTotals(idx, used, marks, cs[n].id);
    }
  }

  /** What the candidates and the removed packs have of unused bytes, is unused or a copy that
      was not picked. */
  lemma CandidatesBounded(cfg: Config, opts: Options, packs: map<Id, PackInfo>, files: seq<File>,
                          idx: seq<Entry>, used: set<Handle>, marks: seq<bool>, r: DecideResult, order: seq<Candidate>)
    requires InfosFrom(packs, idx, used, marks) && r.Decided? && DecidedStats(idx, marks, r)
    requires PlanFits(cfg, opts, packs, files, r.plan) && CandidateOrder(cfg, opts, packs, files, order)
    ensures var s := StatsOf(idx, used, marks, true);
      r.bytes.remove + UnusedBytesOf(order) <= s.unused + s.dup
  {
    hide Total, StatsOf, PlanFits, Ids, InfoOf, WithAction;
    CandidateBytes(order, idx, used, marks);
    CandidatesStay(cfg, opts, packs, files, r.plan, order);
    var gone := r.plan.remove + r.plan.ignore;
    UnusedInUnion(gone, Ids(order), true, idx, marks);
    RemovalBounded(gone + Ids(order), true, idx, used, marks);
  }

  lemma CandidatesStay(cfg: Config, opts: Options, packs: map<Id, PackInfo>, files: seq<File>, plan: Plan,
                       order: seq<Candidate>)
    requires PlanFits(cfg, opts, packs, files, plan) && CandidatesOk(cfg, opts, packs, order)
    ensures plan.remove + plan.ignore !! Ids(order)
  {
    forall p | p in Ids(order)
      ensures p !in plan.remove + plan.ignore
    {
      var c :| c in order && c.id == p;
      assert packs[p].usedBlobs > 0;
      if p in plan.remove + plan.ignore {
        RemovedAreUnused(cfg, opts, packs, files, plan, p);
      }
    }
  }

  lemma RemovedAreUnused(cfg: Config, opts: Options, packs: map<Id, PackInfo>, files: seq<File>, plan: Plan, p: Id)
    requires PlanFits(cfg, opts, packs, files, plan) && p in plan.remove + plan.ignore
    ensures p in packs && packs[p].usedBlobs == 0
  {
  }

  /** A plan honours the tolerance exactly if no candidate is overlooked: the packs to repack
      are those of the loop as it is meant. */
  lemma PlanHonoursToleranceIff(cfg: Config, opts: Options, packs: map<Id, PackInfo>, files: seq<File>,
                                idx: seq<Entry>, used: set<Handle>, marks: seq<bool>, r: DecideResult,
                                order: seq<Candidate>)
    requires InfosFrom(packs, idx, used, marks) && r.Decided? && DecidedStats(idx, marks, r)
    requires DecidedPlan(cfg, opts, files, packs, StatsOf(idx, used, marks, true), r, order)
    requires var s := StatsOf(idx, used, marks, true);
      s.unused < WORD && s.dup < WORD && opts.maxUnusedBytes(s.used) < WORD
    ensures var lim := LimitsFor(cfg, opts, StatsOf(idx, used, marks, true), r.bytes.remove);
      r.plan.repack == ChooseAllExact(lim, 0, order).repack <==> !SomeOverlooked(lim, 0, order)
  {
    hide StatsOf, ChooseAll, ChooseAllExact, SomeOverlooked;
    CandidatesBounded(cfg, opts, packs, files, idx, used, marks, r, order);
    ChoosesAsMeantIff(LimitsFor(cfg, opts, StatsOf(idx, used, marks, true), r.bytes.remove), 0, order);
  }

  /** If every used blob has one copy, or only copies that were picked, no candidate is
      overlooked, whatever the options are. */
  lemma NoCopiesNothingOverlooked(cfg: Config, opts: Options, packs: map<Id, PackInfo>, files: seq<File>,
                                  idx: seq<Entry>, used: set<Handle>, marks: seq<bool>, r: DecideResult,
                                  order: seq<Candidate>)
    requires InfosFrom(packs, idx, used, marks) && r.Decided? && DecidedStats(idx, marks, r)
    requires DecidedPlan(cfg, opts, files, packs, StatsOf(idx, used, marks, true), r, order)
    requires var s := StatsOf(idx, used, marks, true);
      s.dup == 0 && s.unused < WORD && opts.maxUnusedBytes(s.used) < WORD
    ensures var lim := LimitsFor(cfg, opts, StatsOf(idx, used, marks, true), r.bytes.remove);
      r.plan.repack == ChooseAllExact(lim, 0, order).repack
  {
    hide StatsOf, ChooseAll, ChooseAllExact, SomeOverlooked;
    CandidatesBounded(cfg, opts, packs, files, idx, used, marks, r, order);
    EnoughUnused(LimitsFor(cfg, opts, StatsOf(idx, used, marks, true), r.bytes.remove), 0, order);
    PlanHonoursToleranceIff(cfg, opts, packs, files, idx, used, marks, r, order);
  }
}
