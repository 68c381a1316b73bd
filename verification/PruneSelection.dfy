/** Counting the copies of every used blob and picking one of them
    (packInfoFromIndex). */
module PruneSelection {
  import opened Repository

  datatype PackInfo = PackInfo(
    usedBlobs: nat, unusedBlobs: nat, duplicateBlobs: nat,
    usedSize: nat, unusedSize: nat,
    tpe: BlobType, uncompressed: bool)

  /** Blob and byte counters of the selection; `dup` counts copies not picked. */
  datatype BlobStats = BlobStats(used: nat, dup: nat, unused: nat)

  datatype SelectionResult =
    | Selection(keepBlobs: map<Handle, nat>, packs: map<Id, PackInfo>, blobs: BlobStats, bytes: BlobStats)
    | IndexIncomplete(missing: set<Handle>)

  const MAX_COUNT: nat := 255

  /** The counter saturates. */
  function Saturate(n: nat): nat {
    if n < MAX_COUNT then n else MAX_COUNT
  }

  // ----- The specification of the selection -----

  ghost function Duplicates(idx: seq<Entry>, used: set<Handle>): set<Handle> {
    set h | h in used && Copies(idx, h) >= 2
  }

  /** Before duplicates are looked at, an entry is used if its blob is used and listed once. */
  ghost function Unique(idx: seq<Entry>, used: set<Handle>): (r: seq<bool>) {
    seq(|idx|, i requires 0 <= i < |idx| => idx[i].h in used && Copies(idx, idx[i].h) == 1)
  }

  /** Entry k is picked as the copy to keep, given the entries picked so far. */
  ghost predicate Picks(idx: seq<Entry>, used: set<Handle>, marks: seq<bool>, k: nat)
    requires |marks| == |idx| && k < |idx|
  {
    var e := idx[k];
    && e.h in Duplicates(idx, used)
    && Total(Picked(e.h), idx, marks) == 0
    && (|| Total(UsedBlobs(e.pack), idx, marks) > 0
        || Total(DuplicateBlobs(e.pack, Duplicates(idx, used)), idx, marks) == Total(UnusedBlobs(e.pack), idx, marks)
        || Copies(idx[..k], e.h) + 1 == Saturate(Copies(idx, e.h)))
  }

  /** The marks after the first k entries were considered. */
  ghost function Marks(idx: seq<Entry>, used: set<Handle>, k: nat): (r: seq<bool>)
    requires k <= |idx|
    ensures |r| == |idx|
  {
    if k == 0 then Unique(idx, used)
    else
      var m := Marks(idx, used, k - 1);
      if Picks(idx, used, m, k - 1) then m[k - 1 := true] else m
  }

  ghost function Selected(idx: seq<Entry>, used: set<Handle>): seq<bool> {
    Marks(idx, used, |idx|)
  }

  /** The type of a pack as the entries of `s` show it. */
  function TypeOf(s: seq<Entry>, p: Id): BlobType {
    if s == [] then NumBlobTypes
    else
      var t := TypeOf(s[..|s| - 1], p);
      var e := s[|s| - 1];
      if e.pack != p then t
      else if t == NumBlobTypes || t == e.h.tpe then e.h.tpe
      else InvalidBlob
  }

  ghost function InfoUpTo(idx: seq<Entry>, dups: set<Handle>, marks: seq<bool>, i: nat, p: Id): PackInfo
    requires |marks| == |idx| && i <= |idx|
  {
    var s, m := idx[..i], marks[..i];
    PackInfo(
      Total(UsedBlobs(p), s, m), Total(UnusedBlobs(p), s, m), Total(DuplicateBlobs(p, dups), s, m),
      PackSize(idx, p, true) + Total(UsedBytes(p), s, m), Total(UnusedBytes(p), s, m),
      TypeOf(s, p), exists j :: 0 <= j < i && idx[j].pack == p && !idx[j].compressed)
  }

  /** What a set of marks means for a pack. */
  ghost function InfoOf(idx: seq<Entry>, used: set<Handle>, marks: seq<bool>, p: Id): PackInfo
    requires |marks| == |idx|
  {
    InfoUpTo(idx, Duplicates(idx, used), marks, |idx|, p)
  }

  ghost function StatsUpTo(idx: seq<Entry>, used: set<Handle>, marks: seq<bool>, i: nat, bytes: bool): BlobStats
    requires |marks| == |idx| && i <= |idx|
  {
    var s, m := idx[..i], marks[..i];
    BlobStats(Total(AllUsed(bytes), s, m), Total(AllDuplicate(used, bytes), s, m), Total(AllUnused(used, bytes), s, m))
  }

  ghost function StatsOf(idx: seq<Entry>, used: set<Handle>, marks: seq<bool>, bytes: bool): BlobStats
    requires |marks| == |idx|
  {
    StatsUpTo(idx, used, marks, |idx|, bytes)
  }

  // ----- Exactly one copy is picked -----

  lemma {:induction false} UniqueCount(idx: seq<Entry>, used: set<Handle>, h: Handle)
    ensures Total(Picked(h), idx, Unique(idx, used)) == if h in used && Copies(idx, h) == 1 then 1 else 0
  {
    UniqueCountUpTo(idx, used, h, |idx|);
    TotalFull(Picked(h), idx, Unique(idx, used));
    assert idx[..|idx|] == idx;
  }

  lemma {:induction false} UniqueCountUpTo(idx: seq<Entry>, used: set<Handle>, h: Handle, i: nat)
    requires i <= |idx|
    ensures Total(Picked(h), idx[..i], Unique(idx, used)[..i])
         == if h in used && Copies(idx, h) == 1 then Copies(idx[..i], h) else 0
  {
    if i > 0 {
      UniqueCountUpTo(idx, used, h, i - 1);
      TotalSnoc(Picked(h), idx, Unique(idx, used), i - 1);
      CopiesSnoc(idx, h, i - 1);
    }
  }

  /** Whatever the order, at every point of the pass at most one copy of a blob is
      picked, and while none is, fewer copies were seen than the counter can hold. */
  lemma {:induction false} PickedSoFar(idx: seq<Entry>, used: set<Handle>, k: nat, h: Handle)
    requires k <= |idx|
    ensures var n := Total(Picked(h), idx, Marks(idx, used, k));
      && n <= 1
      && (h !in used ==> n == 0)
      && (h in used && Copies(idx, h) == 1 ==> n == 1)
      && (h in Duplicates(idx, used) && n == 0 ==> Copies(idx[..k], h) < Saturate(Copies(idx, h)))
  {
    if k == 0 {
      UniqueCount(idx, used, h);
    } else {
      PickedSoFar(idx, used, k - 1, h);
      CopiesSnoc(idx, h, k - 1);
      var m := Marks(idx, used, k - 1);
      if Picks(idx, used, m, k - 1) {
        TotalUpdate(Picked(h), idx, m, k - 1, true);
        if idx[k - 1].h == h {
          TotalAtLeast(Picked(h), idx, m, k - 1);
        }
      }
    }
  }

  ghost predicate ExactlyOneCopy(idx: seq<Entry>, used: set<Handle>, marks: seq<bool>)
    requires |marks| == |idx|
  {
    && (forall h :: h in used ==> Total(Picked(h), idx, marks) == 1)
    && (forall i :: 0 <= i < |idx| && marks[i] ==> idx[i].h in used)
  }

  /** Every used blob that is listed at all, however often, has exactly one entry
      that is counted as used, and no other blob has one. */
  lemma {:induction false} OneCopySelected(idx: seq<Entry>, used: set<Handle>)
    requires used <= Handles(idx)
    ensures ExactlyOneCopy(idx, used, Selected(idx, used))
  {
    var marks := Selected(idx, used);
    forall h | h in used
      ensures Total(Picked(h), idx, marks) == 1
    {
      CopiesListed(idx, h);
      PickedSoFar(idx, used, |idx|, h);
      assert idx[..|idx|] == idx;
    }
    forall i | 0 <= i < |idx| && marks[i]
      ensures idx[i].h in used
    {
      PickedSoFar(idx, used, |idx|, idx[i].h);
      TotalAtLeast(Picked(idx[i].h), idx, marks, i);
    }
  }

  /** A pack written by an interrupted prune holds only duplicates.  Every blob that is not
      picked when the pass reaches its copy in such a pack is picked right there. */
  lemma {:induction false} DuplicatePackIsKept(idx: seq<Entry>, used: set<Handle>, p: Id, k: nat)
    requires k < |idx| && idx[k].pack == p
    requires forall i :: 0 <= i < |idx| && idx[i].pack == p ==> idx[i].h in Duplicates(idx, used)
    ensures Total(Picked(idx[k].h), idx, Marks(idx, used, k + 1)) == 1
  {
    var m, h, dups := Marks(idx, used, k), idx[k].h, Duplicates(idx, used);
    PickedSoFar(idx, used, k, h);
    PickedSoFar(idx, used, k + 1, h);
    if Total(Picked(h), idx, m) == 0 {
      if Total(UsedBlobs(p), idx, m) == 0 {
        forall i | 0 <= i < |idx|
          ensures Worth(DuplicateBlobs(p, dups), idx[i], m[i]) == Worth(UnusedBlobs(p), idx[i], m[i])
        {
          TotalAtLeast(UsedBlobs(p), idx, m, i);
        }
        TotalSameWorth(DuplicateBlobs(p, dups), UnusedBlobs(p), idx, m, m);
      }
      assert Picks(idx, used, m, k);
      TotalUpdate(Picked(h), idx, m, k, true);
      if m[k] {
        TotalAtLeast(Picked(h), idx, m, k);
      }
    } else if Picks(idx, used, m, k) {
      TotalUpdate(Picked(h), idx, m, k, true);
    }
  }

  lemma {:induction false} NoDuplicates(idx: seq<Entry>, used: set<Handle>, k: nat)
    requires k <= |idx| && Duplicates(idx, used) == {}
    ensures Marks(idx, used, k) == Unique(idx, used)
  {
    if k > 0 {
      NoDuplicates(idx, used, k - 1);
    }
  }

  // ----- Conservation -----

  /** Used, duplicate and unused bytes add up to the lengths of all entries. */
  lemma StatsConserved(idx: seq<Entry>, used: set<Handle>, marks: seq<bool>)
    requires |marks| == |idx|
    requires forall i :: 0 <= i < |idx| && marks[i] ==> idx[i].h in used
    ensures var s := StatsOf(idx, used, marks, true);
      s.used + s.dup + s.unused == Total(AllBytes, idx, marks)
    ensures var s := StatsOf(idx, used, marks, false);
      s.used + s.dup + s.unused == |idx|
  {
    StatsConservedUpTo(idx, used, marks, |idx|);
    TotalFull(AllBytes, idx, marks);
  }

  lemma {:induction false} StatsConservedUpTo(idx: seq<Entry>, used: set<Handle>, marks: seq<bool>, i: nat)
    requires |marks| == |idx| && i <= |idx|
    requires forall i :: 0 <= i < |idx| && marks[i] ==> idx[i].h in used
    ensures var s := StatsUpTo(idx, used, marks, i, true);
      s.used + s.dup + s.unused == Total(AllBytes, idx[..i], marks[..i])
    ensures var s := StatsUpTo(idx, used, marks, i, false);
      s.used + s.dup + s.unused == i
  {
    if i > 0 {
      StatsConservedUpTo(idx, used, marks, i - 1);
      TotalSnoc(AllBytes, idx, marks, i - 1);
      StatsSnoc(idx, used, marks, i - 1, true);
      StatsSnoc(idx, used, marks, i - 1, false);
    }
  }

  lemma StatsSnoc(idx: seq<Entry>, used: set<Handle>, marks: seq<bool>, i: nat, b: bool)
    requires |marks| == |idx| && i < |idx|
    ensures var s, t := StatsUpTo(idx, used, marks, i, b), StatsUpTo(idx, used, marks, i + 1, b);
      && t.used == s.used + Worth(AllUsed(b), idx[i], marks[i])
      && t.dup == s.dup + Worth(AllDuplicate(used, b), idx[i], marks[i])
      && t.unused == s.unused + Worth(AllUnused(used, b), idx[i], marks[i])
  {
    TotalSnoc(AllUsed(b), idx, marks, i);
    TotalSnoc(AllDuplicate(used, b), idx, marks, i);
    TotalSnoc(AllUnused(used, b), idx, marks, i);
  }

  /** The size computed for a pack is its header plus all blob lengths, whichever copies
      were picked. */
  lemma {:induction false} PackSizeIndependentOfMarks(idx: seq<Entry>, used: set<Handle>, marks: seq<bool>, p: Id)
    requires |marks| == |idx|
    ensures var i := InfoOf(idx, used, marks, p);
      i.usedSize + i.unusedSize == PackSize(idx, p, false)
  {
    PackSizeSplit(idx, marks, p);
    TotalFull(UsedBytes(p), idx, marks);
    TotalFull(UnusedBytes(p), idx, marks);
  }

  lemma {:induction false} PackSizeSplit(idx: seq<Entry>, marks: seq<bool>, p: Id)
    requires |marks| == |idx|
    ensures PackSize(idx, p, true) + Total(UsedBytes(p), idx, marks) + Total(UnusedBytes(p), idx, marks)
         == PackSize(idx, p, false)
  {
    if idx != [] {
      PackSizeSplit(idx[..|idx| - 1], marks[..|idx| - 1], p);
    }
  }

  // ----- The three passes -----

  method CountCopies(idx: seq<Entry>, used: set<Handle>) returns (counts: map<Handle, nat>)
    ensures counts.Keys == used
    ensures forall h :: h in used ==> counts[h] == Saturate(Copies(idx, h))
    ensures forall h :: h in used ==> counts[h] == if Copies(idx, h) < 255 then Copies(idx, h) else 255
  {
    counts := map h | h in used :: 0;
    for i := 0 to |idx|
      invariant counts.Keys == used
      invariant forall h :: h in used ==> counts[h] == Saturate(Copies(idx[..i], h))
    {
      var bh := idx[i].h;
      forall h | h in used {
        CopiesSnoc(idx, h, i);
      }
      if bh in counts {
        var count := counts[bh];
        if count < MAX_COUNT {
          count := count + 1;
        }
        counts := counts[bh := count];
      }
    }
    assert idx[..|idx|] == idx;
  }

  /** pack.Size */
  method PackSizes(idx: seq<Entry>, onlyHdr: bool) returns (sizes: map<Id, nat>)
    ensures sizes.Keys == Packs(idx)
    ensures forall p :: p in sizes ==> sizes[p] == PackSize(idx, p, onlyHdr)
  {
    sizes := map[];
    for i := 0 to |idx|
      invariant sizes.Keys == Packs(idx[..i])
      invariant forall p :: PackSize(idx[..i], p, onlyHdr) == if p in sizes then sizes[p] else HEADER_SIZE
    {
      var e := idx[i];
      assert idx[..i + 1] == idx[..i] + [e];
      var size := if e.pack in sizes then sizes[e.pack] else HEADER_SIZE;
      if !onlyHdr {
        size := size + e.length;
      }
      sizes := sizes[e.pack := size + EntrySize(e)];
    }
    assert idx[..|idx|] == idx;
  }

  /** The pack after one more of its entries was seen; dupCount is the blob's counter. */
  function AddEntry(ip: PackInfo, e: Entry, dupCount: nat): PackInfo {
    var tpe := if ip.tpe == NumBlobTypes then e.h.tpe else ip.tpe;
    var ip := ip.(tpe := if tpe != e.h.tpe then InvalidBlob else tpe,
                  uncompressed := ip.uncompressed || !e.compressed);
    if dupCount >= 2 then
      ip.(unusedSize := ip.unusedSize + e.length, unusedBlobs := ip.unusedBlobs + 1,
          duplicateBlobs := ip.duplicateBlobs + 1)
    else if dupCount == 1 then
      ip.(usedSize := ip.usedSize + e.length, usedBlobs := ip.usedBlobs + 1)
    else
      ip.(unusedSize := ip.unusedSize + e.length, unusedBlobs := ip.unusedBlobs + 1)
  }

  function AddBlob(s: BlobStats, n: nat, dupCount: nat): BlobStats {
    if dupCount >= 2 then s.(dup := s.dup + n)
    else if dupCount == 1 then s.(used := s.used + n)
    else s.(unused := s.unused + n)
  }

  ghost function Counter(idx: seq<Entry>, used: set<Handle>, h: Handle): nat {
    if h in used then Saturate(Copies(idx, h)) else 0
  }

  lemma InfoSnoc(idx: seq<Entry>, used: set<Handle>, i: nat, p: Id)
    requires used <= Handles(idx) && i < |idx|
    ensures var dups, marks, e := Duplicates(idx, used), Unique(idx, used), idx[i];
      var a, b := InfoUpTo(idx, dups, marks, i, p), InfoUpTo(idx, dups, marks, i + 1, p);
      b == if e.pack == p then AddEntry(a, e, Counter(idx, used, e.h)) else a
  {
    var dups, marks := Duplicates(idx, used), Unique(idx, used);
    CopiesListed(idx, idx[i].h);
    TotalSnoc(UsedBlobs(p), idx, marks, i);
    TotalSnoc(UnusedBlobs(p), idx, marks, i);
    TotalSnoc(DuplicateBlobs(p, dups), idx, marks, i);
    TotalSnoc(UsedBytes(p), idx, marks, i);
    TotalSnoc(UnusedBytes(p), idx, marks, i);
    assert idx[..i + 1][..i] == idx[..i];
  }

  lemma AddBlobSnoc(idx: seq<Entry>, used: set<Handle>, i: nat, b: bool)
    requires used <= Handles(idx) && i < |idx|
    ensures StatsUpTo(idx, used, Unique(idx, used), i + 1, b)
         == AddBlob(StatsUpTo(idx, used, Unique(idx, used), i, b), Measure(b, idx[i]), Counter(idx, used, idx[i].h))
  {
    CopiesListed(idx, idx[i].h);
    StatsSnoc(idx, used, Unique(idx, used), i, b);
  }

  ghost predicate PacksUpTo(packs: map<Id, PackInfo>, idx: seq<Entry>, used: set<Handle>, i: nat)
    requires i <= |idx|
  {
    && packs.Keys == Packs(idx)
    && forall p :: p in packs ==> packs[p] == InfoUpTo(idx, Duplicates(idx, used), Unique(idx, used), i, p)
  }

  lemma PacksSnoc(packs: map<Id, PackInfo>, idx: seq<Entry>, used: set<Handle>, i: nat)
    requires used <= Handles(idx) && i < |idx| && PacksUpTo(packs, idx, used, i)
    ensures idx[i].pack in packs
    ensures var e := idx[i];
      PacksUpTo(packs[e.pack := AddEntry(packs[e.pack], e, Counter(idx, used, e.h))], idx, used, i + 1)
  {
    forall p | p in packs
      ensures InfoUpTo(idx, Duplicates(idx, used), Unique(idx, used), i + 1, p)
           == if idx[i].pack == p then AddEntry(packs[p], idx[i], Counter(idx, used, idx[i].h)) else packs[p]
    {
      InfoSnoc(idx, used, i, p);
    }
  }

  method ClassifyEntries(idx: seq<Entry>, counts: map<Handle, nat>)
    returns (packs: map<Id, PackInfo>, blobs: BlobStats, bytes: BlobStats, hasDuplicates: bool)
    requires counts.Keys <= Handles(idx)
    requires forall h :: h in counts ==> counts[h] == Saturate(Copies(idx, h))
    ensures PacksUpTo(packs, idx, counts.Keys, |idx|)
    ensures blobs == StatsOf(idx, counts.Keys, Unique(idx, counts.Keys), false)
    ensures bytes == StatsOf(idx, counts.Keys, Unique(idx, counts.Keys), true)
    ensures !hasDuplicates ==> Duplicates(idx, counts.Keys) == {}
  {
    hide AddEntry;
    ghost var used := counts.Keys;
    var sizes := PackSizes(idx, true);
    packs := map p | p in sizes :: PackInfo(0, 0, 0, sizes[p], 0, NumBlobTypes, false);
    blobs, bytes, hasDuplicates := BlobStats(0, 0, 0), BlobStats(0, 0, 0), false;
    for i := 0 to |idx|
      invariant PacksUpTo(packs, idx, used, i)
      invariant blobs == StatsUpTo(idx, used, Unique(idx, used), i, false)
      invariant bytes == StatsUpTo(idx, used, Unique(idx, used), i, true)
      invariant !hasDuplicates ==> forall j :: 0 <= j < i ==> Counter(idx, used, idx[j].h) < 2
    {
      var e := idx[i];
      AddBlobSnoc(idx, used, i, false);
      AddBlobSnoc(idx, used, i, true);
      PacksSnoc(packs, idx, used, i);
      var dupCount := if e.h in counts then counts[e.h] else 0;
      hasDuplicates := hasDuplicates || dupCount >= 2;
      bytes, blobs := AddBlob(bytes, e.length, dupCount), AddBlob(blobs, 1, dupCount);
      packs := packs[e.pack := AddEntry(packs[e.pack], e, dupCount)];
    }
    if !hasDuplicates {
      forall h | h in used
        ensures h !in Duplicates(idx, used)
      {
        var e :| e in idx && e.h == h;
      }
    }
  }

  /** A pack after one of its unused entries became used. */
  function Promote(ip: PackInfo, size: nat): PackInfo
    requires ip.unusedBlobs >= 1 && ip.unusedSize >= size
  {
    ip.(usedSize := ip.usedSize + size, usedBlobs := ip.usedBlobs + 1,
        unusedSize := ip.unusedSize - size, unusedBlobs := ip.unusedBlobs - 1)
  }

  lemma InfoUpdate(idx: seq<Entry>, used: set<Handle>, marks: seq<bool>, k: nat, p: Id)
    requires |marks| == |idx| && k < |idx| && !marks[k]
    ensures var a, b, e := InfoOf(idx, used, marks, p), InfoOf(idx, used, marks[k := true], p), idx[k];
      if e.pack != p then a == b
      else
        && a.unusedBlobs >= 1 && a.unusedSize >= e.length
        && b == Promote(a, e.length)
  {
    var dups := Duplicates(idx, used);
    var m := marks[k := true];
    forall t | t in {UsedBlobs(p), UnusedBlobs(p), DuplicateBlobs(p, dups), UsedBytes(p), UnusedBytes(p)}
      ensures Total(t, idx[..|idx|], m[..|idx|])
           == Total(t, idx[..|idx|], marks[..|idx|]) - Worth(t, idx[k], false) + Worth(t, idx[k], true)
      ensures Total(t, idx[..|idx|], marks[..|idx|]) >= Worth(t, idx[k], false)
    {
      TotalUpdate(t, idx, marks, k, true);
      TotalFull(t, idx, marks);
      TotalFull(t, idx, m);
    }
  }

  lemma StatsUpdate(idx: seq<Entry>, used: set<Handle>, marks: seq<bool>, k: nat, bytes: bool)
    requires |marks| == |idx| && k < |idx| && !marks[k] && idx[k].h in used
    ensures var a, b, n := StatsOf(idx, used, marks, bytes), StatsOf(idx, used, marks[k := true], bytes),
      Measure(bytes, idx[k]);
      a.dup >= n && b == a.(used := a.used + n, dup := a.dup - n)
  {
    var m := marks[k := true];
    forall t | t in {AllUsed(bytes), AllDuplicate(used, bytes), AllUnused(used, bytes)}
      ensures Total(t, idx[..|idx|], m[..|idx|])
           == Total(t, idx[..|idx|], marks[..|idx|]) - Worth(t, idx[k], false) + Worth(t, idx[k], true)
      ensures Total(t, idx[..|idx|], marks[..|idx|]) >= Worth(t, idx[k], false)
    {
      TotalUpdate(t, idx, marks, k, true);
      TotalFull(t, idx, marks);
      TotalFull(t, idx, m);
    }
  }

  /** The counter of a blob after k entries: 1 once a copy was picked; before that the
      number of copies still to come as far as it was counted, with 0 for the last one. */
  ghost function CountAfter(idx: seq<Entry>, used: set<Handle>, k: nat, h: Handle): int
    requires k <= |idx|
  {
    if Total(Picked(h), idx, Marks(idx, used, k)) > 0 then 1
    else
      var left := Saturate(Copies(idx, h)) - Copies(idx[..k], h);
      if left == 1 then 0 else left
  }

  /** One step of the third pass, seen from one blob. */
  lemma CountStep(idx: seq<Entry>, used: set<Handle>, k: nat, h: Handle)
    requires used <= Handles(idx) && k < |idx| && h in used
    ensures var c, c', m := CountAfter(idx, used, k, h), CountAfter(idx, used, k + 1, h), Marks(idx, used, k);
      && (idx[k].h != h ==> c' == c)
      && (idx[k].h == h && c == 1 ==> c' == 1 && !Picks(idx, used, m, k))
      && (idx[k].h == h && c != 1 ==>
            && h in Duplicates(idx, used) && Total(Picked(h), idx, m) == 0 && !m[k] && (c == 0 || c >= 2)
            && (c == 0 <==> Copies(idx[..k], h) + 1 == Saturate(Copies(idx, h)))
            && c' == if Picks(idx, used, m, k) then 1 else if c == 2 then 0 else c - 1)
  {
    var m := Marks(idx, used, k);
    CopiesListed(idx, h);
    PickedSoFar(idx, used, k, h);
    PickedSoFar(idx, used, k + 1, h);
    CopiesSnoc(idx, h, k);
    if Picks(idx, used, m, k) {
      TotalUpdate(Picked(h), idx, m, k, true);
    }
    if idx[k].h == h && m[k] {
      TotalAtLeast(Picked(h), idx, m, k);
    }
  }

  lemma FirstCount(idx: seq<Entry>, used: set<Handle>, h: Handle)
    requires h in used && used <= Handles(idx)
    ensures CountAfter(idx, used, 0, h) == Saturate(Copies(idx, h))
  {
    CopiesListed(idx, h);
    UniqueCount(idx, used, h);
  }

  lemma LastCount(idx: seq<Entry>, used: set<Handle>, h: Handle)
    requires h in used && used <= Handles(idx)
    ensures CountAfter(idx, used, |idx|, h) == 1
  {
    OneCopySelected(idx, used);
  }

  method SelectCopies(idx: seq<Entry>, counts0: map<Handle, nat>, packs0: map<Id, PackInfo>, blobs0: BlobStats,
                      bytes0: BlobStats)
    returns (counts: map<Handle, nat>, packs: map<Id, PackInfo>, blobs: BlobStats, bytes: BlobStats)
    requires counts0.Keys <= Handles(idx)
    requires forall h :: h in counts0 ==> counts0[h] == Saturate(Copies(idx, h))
    requires packs0.Keys == Packs(idx)
    requires forall p :: p in packs0 ==> packs0[p] == InfoOf(idx, counts0.Keys, Unique(idx, counts0.Keys), p)
    requires blobs0 == StatsOf(idx, counts0.Keys, Unique(idx, counts0.Keys), false)
    requires bytes0 == StatsOf(idx, counts0.Keys, Unique(idx, counts0.Keys), true)
    ensures var marks := Selected(idx, counts0.Keys);
      && counts.Keys == counts0.Keys
      && (forall h :: h in counts ==> counts[h] == 1)
      && packs.Keys == Packs(idx)
      && (forall p :: p in packs ==> packs[p] == InfoOf(idx, counts0.Keys, marks, p))
      && blobs == StatsOf(idx, counts0.Keys, marks, false)
      && bytes == StatsOf(idx, counts0.Keys, marks, true)
  {
    hide InfoOf, StatsOf, CountAfter, Copies, Saturate, Picks, Handles, Packs, Unique;
    ghost var used := counts0.Keys;
    counts, packs, blobs, bytes := counts0, packs0, blobs0, bytes0;
    forall h | h in used
      ensures counts[h] == CountAfter(idx, used, 0, h)
    {
      FirstCount(idx, used, h);
    }
    for k := 0 to |idx|
      invariant counts.Keys == used
      invariant forall h :: h in used ==> counts[h] == CountAfter(idx, used, k, h)
      invariant packs.Keys == Packs(idx)
      invariant forall p :: p in packs ==> packs[p] == InfoOf(idx, used, Marks(idx, used, k), p)
      invariant blobs == StatsOf(idx, used, Marks(idx, used, k), false)
      invariant bytes == StatsOf(idx, used, Marks(idx, used, k), true)
    {
      counts, packs, blobs, bytes := SelectStep(idx, used, k, counts, packs, blobs, bytes);
    }
    forall h | h in counts
      ensures counts[h] == 1
    {
      LastCount(idx, used, h);
    }
  }

  lemma PackListed(idx: seq<Entry>, k: nat)
    requires k < |idx|
    ensures idx[k].pack in Packs(idx)
  {
  }

  /** The body of the third pass for entry k. */
  method SelectStep(idx: seq<Entry>, ghost used: set<Handle>, k: nat,
                    counts0: map<Handle, nat>, packs0: map<Id, PackInfo>, blobs0: BlobStats, bytes0: BlobStats)
    returns (counts: map<Handle, nat>, packs: map<Id, PackInfo>, blobs: BlobStats, bytes: BlobStats)
    requires k < |idx| && used == counts0.Keys && used <= Handles(idx)
    requires forall h :: h in used ==> counts0[h] == CountAfter(idx, used, k, h)
    requires packs0.Keys == Packs(idx)
    requires forall p :: p in packs0 ==> packs0[p] == InfoOf(idx, used, Marks(idx, used, k), p)
    requires blobs0 == StatsOf(idx, used, Marks(idx, used, k), false)
    requires bytes0 == StatsOf(idx, used, Marks(idx, used, k), true)
    ensures counts.Keys == used
    ensures forall h :: h in used ==> counts[h] == CountAfter(idx, used, k + 1, h)
    ensures packs.Keys == Packs(idx)
    ensures forall p :: p in packs ==> packs[p] == InfoOf(idx, used, Marks(idx, used, k + 1), p)
    ensures blobs == StatsOf(idx, used, Marks(idx, used, k + 1), false)
    ensures bytes == StatsOf(idx, used, Marks(idx, used, k + 1), true)
  {
    hide InfoOf, StatsOf, CountAfter, Copies, Saturate, Handles, Packs, Unique, Total;
    counts, packs, blobs, bytes := counts0, packs0, blobs0, bytes0;
    var e := idx[k];
    assert e.pack in Packs(idx) by { PackListed(idx, k); }
    ghost var m := Marks(idx, used, k);
    forall h | h in used
      ensures e.h != h ==> CountAfter(idx, used, k + 1, h) == counts[h]
    {
      CountStep(idx, used, k, h);
    }
    if e.h in used {
      CountStep(idx, used, k, e.h);
    }
    if e.h !in counts || counts[e.h] == 1 {
      return;
    }
    var count := counts[e.h];
    var ip := packs[e.pack];
    PickedSoFar(idx, used, k, e.h);
    InfoAt(idx, used, m, e.pack);
    if ip.usedBlobs > 0 || ip.duplicateBlobs == ip.unusedBlobs || count == 0 {
      assert Picks(idx, used, m, k);
      InfoUpdate(idx, used, m, k, e.pack);
      forall p | p in packs
        ensures InfoOf(idx, used, m[k := true], p) == if e.pack == p then Promote(ip, e.length) else packs[p]
      {
        InfoUpdate(idx, used, m, k, p);
      }
      StatsUpdate(idx, used, m, k, false);
      StatsUpdate(idx, used, m, k, true);
      packs := packs[e.pack := Promote(ip, e.length)];
      bytes := bytes.(used := bytes.used + e.length, dup := bytes.dup - e.length);
      blobs := blobs.(used := blobs.used + 1, dup := blobs.dup - 1);
      counts := counts[e.h := 1];
    } else {
      count := count - 1;
      if count == 1 {
        count := 0;
      }
      counts := counts[e.h := count];
    }
  }

  lemma InfoAt(idx: seq<Entry>, used: set<Handle>, marks: seq<bool>, p: Id)
    requires |marks| == |idx|
    ensures var i := InfoOf(idx, used, marks, p);
      && i.usedBlobs == Total(UsedBlobs(p), idx, marks)
      && i.unusedBlobs == Total(UnusedBlobs(p), idx, marks)
      && i.duplicateBlobs == Total(DuplicateBlobs(p, Duplicates(idx, used)), idx, marks)
  {
    assert idx[..|idx|] == idx && marks[..|idx|] == marks;
  }

  /** Counts the copies of the used blobs, picks one copy of each and says what that means
      for every pack.  Fails exactly when a used blob is not listed. */
  method PackInfoFromIndex(idx: seq<Entry>, used: set<Handle>) returns (r: SelectionResult)
    ensures r.IndexIncomplete? <==> !(used <= Handles(idx))
    ensures r.IndexIncomplete? ==> r.missing == used - Handles(idx)
    ensures r.Selection? ==> var marks := Selected(idx, used);
      && ExactlyOneCopy(idx, used, marks)
      && r.keepBlobs.Keys == used
      && (forall h :: h in used ==> r.keepBlobs[h] == 1)
      && r.packs.Keys == Packs(idx)
      && (forall p :: p in r.packs ==> r.packs[p] == InfoOf(idx, used, marks, p))
      && r.blobs == StatsOf(idx, used, marks, false)
      && r.bytes == StatsOf(idx, used, marks, true)
  {
    var counts := CountCopies(idx, used);
    forall h | h in used
      ensures counts[h] == 0 <==> h !in Handles(idx)
    {
      CopiesListed(idx, h);
    }
    var missing := set h | h in counts && counts[h] == 0;
    if missing != {} {
      ghost var h :| h in missing;
      return IndexIncomplete(missing);
    }
    forall h | h in used
      ensures h in Handles(idx)
    {
      assert h !in missing;
    }
    var packs, blobs, bytes, hasDuplicates := ClassifyEntries(idx, counts);
    OneCopySelected(idx, used);
    if hasDuplicates {
      counts, packs, blobs, bytes := SelectCopies(idx, counts, packs, blobs, bytes);
    } else {
      NoDuplicates(idx, used, |idx|);
      forall h | h in used
        ensures counts[h] == 1
      {
        assert h !in Duplicates(idx, used);
      }
    }
    // the counter of every blob is 1, so the internal error is unreachable
    assert forall h :: h in counts ==> counts[h] == 1;
    return Selection(counts, packs, blobs, bytes);
  }
}
