/** What the selection of copies means, entry by entry. */
module SelectionLaws {
  import opened Repository
  import opened PruneSelection

  // ----- Which entries are picked -----

  lemma {:induction false} TwoMarked(idx: seq<Entry>, marks: seq<bool>, h: Handle, i: nat, j: nat)
    requires |marks| == |idx| && i < j < |idx| && marks[i] && marks[j] && idx[i].h == h && idx[j].h == h
    ensures Total(Picked(h), idx, marks) >= 2
  {
    var n := |idx| - 1;
    if j == n {
      TotalAtLeast(Picked(h), idx[..n], marks[..n], i);
    } else {
      TwoMarked(idx[..n], marks[..n], h, i, j);
    }
  }

  /** For each used blob exactly one of its entries is marked, whatever the order of the index,
      and no entry of another blob is. */
  lemma OneEntryEach(idx: seq<Entry>, used: set<Handle>)
    requires used <= Handles(idx)
    ensures var m := Selected(idx, used);
      && |m| == |idx|
      && (forall h :: h in used ==> exists k :: 0 <= k < |idx| && idx[k].h == h && m[k])
      && (forall i, j :: 0 <= i < j < |idx| && m[i] && m[j] ==> idx[i].h != idx[j].h)
      && (forall k :: 0 <= k < |idx| && m[k] ==> idx[k].h in used)
  {
    var m := Selected(idx, used);
    assert |m| == |idx|;
    hide Selected;
    OneCopySelected(idx, used);
    forall h | h in used
      ensures exists k :: 0 <= k < |idx| && idx[k].h == h && m[k]
    {
      var k := TotalWitness(Picked(h), idx, m);
    }
    forall i, j | 0 <= i < j < |idx| && m[i] && m[j]
      ensures idx[i].h != idx[j].h
    {
      if idx[i].h == idx[j].h {
        TwoMarked(idx, m, idx[i].h, i, j);
      }
    }
  }

  /** Some entry of the pack is marked. */
  ghost predicate SomeMarked(idx: seq<Entry>, marks: seq<bool>, p: Id)
    requires |marks| == |idx|
  {
    exists i :: 0 <= i < |idx| && idx[i].pack == p && marks[i]
  }

  /** All entries of the pack are of used blobs that are listed more than once. */
  ghost predicate OnlyDuplicates(idx: seq<Entry>, used: set<Handle>, p: Id) {
    forall i :: 0 <= i < |idx| && idx[i].pack == p ==> idx[i].h in used && Copies(idx, idx[i].h) >= 2
  }

  lemma {:induction false} NoneMarked(idx: seq<Entry>, marks: seq<bool>, p: Id)
    requires |marks| == |idx|
    ensures Total(UsedBlobs(p), idx, marks) > 0 <==> SomeMarked(idx, marks, p)
  {
    if Total(UsedBlobs(p), idx, marks) > 0 {
      var k := TotalWitness(UsedBlobs(p), idx, marks);
    }
    if SomeMarked(idx, marks, p) {
      var i :| 0 <= i < |idx| && idx[i].pack == p && marks[i];
      TotalAtLeast(UsedBlobs(p), idx, marks, i);
    }
  }

  /** While no entry of the pack is marked, its duplicates are as many as its unmarked entries
      exactly if all of them are duplicates. */
  lemma {:induction false} AllDuplicates(idx: seq<Entry>, marks: seq<bool>, p: Id, dups: set<Handle>)
    requires |marks| == |idx| && !SomeMarked(idx, marks, p)
    ensures Total(DuplicateBlobs(p, dups), idx, marks) <= Total(UnusedBlobs(p), idx, marks)
    ensures Total(DuplicateBlobs(p, dups), idx, marks) == Total(UnusedBlobs(p), idx, marks) <==>
      forall i :: 0 <= i < |idx| && idx[i].pack == p ==> idx[i].h in dups
  {
    if idx != [] {
      var n := |idx| - 1;
      assert forall i :: 0 <= i < n ==> idx[..n][i] == idx[i] && marks[..n][i] == marks[i];
      AllDuplicates(idx[..n], marks[..n], p, dups);
    }
  }

  /** An entry is picked exactly if its blob is used, listed more than once and not marked yet,
      and the pack has a marked entry, or only duplicates, or the entry is the last one that
      the counter, which goes up to 255, knows of. */
  ghost predicate Preferred(idx: seq<Entry>, used: set<Handle>, marks: seq<bool>, k: nat)
    requires |marks| == |idx| && k < |idx|
  {
    var e := idx[k];
    && e.h in used && Copies(idx, e.h) >= 2
    && (forall i :: 0 <= i < |idx| && idx[i].h == e.h ==> !marks[i])
    && (|| SomeMarked(idx, marks, e.pack)
        || OnlyDuplicates(idx, used, e.pack)
        || Copies(idx[..k], e.h) + 1 == if Copies(idx, e.h) < 255 then Copies(idx, e.h) else 255)
  }

  lemma PicksIffPreferred(idx: seq<Entry>, used: set<Handle>, marks: seq<bool>, k: nat)
    requires |marks| == |idx| && k < |idx|
    ensures Picks(idx, used, marks, k) <==> Preferred(idx, used, marks, k)
  {
    hide Total;
    var e := idx[k];
    NoneMarked(idx, marks, e.pack);
    if !SomeMarked(idx, marks, e.pack) {
      AllDuplicates(idx, marks, e.pack, Duplicates(idx, used));
    }
    if Total(Picked(e.h), idx, marks) > 0 {
      var i := TotalWitness(Picked(e.h), idx, marks);
    }
    if i :| 0 <= i < |idx| && idx[i].h == e.h && marks[i] {
      TotalAtLeast(Picked(e.h), idx, marks, i);
    }
  }

  lemma {:induction false} DecidedOnce(idx: seq<Entry>, used: set<Handle>, j: nat, k: nat)
    requires j <= |idx| && k < |idx|
    ensures Marks(idx, used, j)[k] <==>
      (idx[k].h in used && Copies(idx, idx[k].h) == 1) || (k < j && Picks(idx, used, Marks(idx, used, k), k))
  {
    hide Picks;
    if j > 0 {
      DecidedOnce(idx, used, j - 1, k);
    }
  }

  /** An entry ends up marked exactly if its blob is used and listed only there, or if it was
      picked when its turn came. */
  lemma MarkedIff(idx: seq<Entry>, used: set<Handle>, k: nat)
    requires k < |idx|
    ensures Selected(idx, used)[k] <==>
      (idx[k].h in used && Copies(idx, idx[k].h) == 1) || Preferred(idx, used, Marks(idx, used, k), k)
  {
    DecidedOnce(idx, used, |idx|, k);
    PicksIffPreferred(idx, used, Marks(idx, used, k), k);
  }

  // ----- What is known of a pack -----

  /** The lengths of the marked, or the other, entries of a pack. */
  function Lengths(idx: seq<Entry>, marks: seq<bool>, p: Id, marked: bool): nat
    requires |marks| == |idx|
  {
    if idx == [] then 0
    else
      var n := |idx| - 1;
      Lengths(idx[..n], marks[..n], p, marked)
      + if idx[n].pack == p && marks[n] == marked then idx[n].length else 0
  }

  /** The header: 36 bytes, and for each entry 37, or 41 if it is compressed. */
  function HeaderBytes(idx: seq<Entry>, p: Id): nat {
    if idx == [] then 36
    else
      var e := idx[|idx| - 1];
      HeaderBytes(idx[..|idx| - 1], p) + if e.pack != p then 0 else if e.compressed then 41 else 37
  }

  lemma {:induction false} SizesAre(idx: seq<Entry>, marks: seq<bool>, p: Id)
    requires |marks| == |idx|
    ensures PackSize(idx, p, true) == HeaderBytes(idx, p)
    ensures Total(UsedBytes(p), idx, marks) == Lengths(idx, marks, p, true)
    ensures Total(UnusedBytes(p), idx, marks) == Lengths(idx, marks, p, false)
  {
    if idx != [] {
      SizesAre(idx[..|idx| - 1], marks[..|idx| - 1], p);
    }
  }

  /** The positions of the marked, or the other, entries of a pack. */
  function Positions(idx: seq<Entry>, marks: seq<bool>, p: Id, marked: bool): set<nat>
    requires |marks| == |idx|
  {
    set k: nat | k < |idx| && idx[k].pack == p && marks[k] == marked
  }

  lemma {:induction false} CountsAre(idx: seq<Entry>, marks: seq<bool>, p: Id)
    requires |marks| == |idx|
    ensures Total(UsedBlobs(p), idx, marks) == |Positions(idx, marks, p, true)|
    ensures Total(UnusedBlobs(p), idx, marks) == |Positions(idx, marks, p, false)|
  {
    if idx != [] {
      var n := |idx| - 1;
      CountsAre(idx[..n], marks[..n], p);
      PositionsSnoc(idx, marks, p, true);
      PositionsSnoc(idx, marks, p, false);
    }
  }

  lemma PositionsSnoc(idx: seq<Entry>, marks: seq<bool>, p: Id, marked: bool)
    requires |marks| == |idx| && idx != []
    ensures var n := |idx| - 1;
      |Positions(idx, marks, p, marked)|
      == |Positions(idx[..n], marks[..n], p, marked)| + if idx[n].pack == p && marks[n] == marked then 1 else 0
  {
    var n := |idx| - 1;
    var before := Positions(idx[..n], marks[..n], p, marked);
    forall k: nat
      ensures k in Positions(idx, marks, p, marked) <==>
        k in before || (k == n && idx[n].pack == p && marks[n] == marked)
    {
      InPositions(idx, marks, p, marked, k);
      InPositions(idx[..n], marks[..n], p, marked, k);
    }
    InPositions(idx[..n], marks[..n], p, marked, n);
    hide Positions;
    if idx[n].pack == p && marks[n] == marked {
      assert Positions(idx, marks, p, marked) == before + {n};
    } else {
      assert Positions(idx, marks, p, marked) == before;
    }
  }

  lemma InPositions(idx: seq<Entry>, marks: seq<bool>, p: Id, marked: bool, k: nat)
    requires |marks| == |idx|
    ensures k in Positions(idx, marks, p, marked) <==> k < |idx| && idx[k].pack == p && marks[k] == marked
  {
  }

  /** Whether all entries of the pack have this type. */
  ghost predicate AllOfType(idx: seq<Entry>, p: Id, t: BlobType) {
    forall i :: 0 <= i < |idx| && idx[i].pack == p ==> idx[i].h.tpe == t
  }

  lemma PacksSnoc(idx: seq<Entry>, p: Id)
    requires idx != []
    ensures p in Packs(idx) <==> p in Packs(idx[..|idx| - 1]) || idx[|idx| - 1].pack == p
  {
    assert idx == idx[..|idx| - 1] + [idx[|idx| - 1]];
  }

  lemma TypesSnoc(idx: seq<Entry>, p: Id, t: BlobType)
    requires idx != []
    ensures var e := idx[|idx| - 1];
      AllOfType(idx, p, t) <==> AllOfType(idx[..|idx| - 1], p, t) && (e.pack == p ==> e.h.tpe == t)
  {
    var before := idx[..|idx| - 1];
    if AllOfType(idx, p, t) {
      assert forall i :: 0 <= i < |before| ==> before[i] == idx[i];
    }
    if AllOfType(before, p, t) && (idx[|idx| - 1].pack == p ==> idx[|idx| - 1].h.tpe == t) {
      forall i | 0 <= i < |idx| && idx[i].pack == p
        ensures idx[i].h.tpe == t
      {
        assert i < |before| ==> before[i] == idx[i];
      }
    }
  }

  /** A pack without entries has all of them of any type, and one with entries of one type only. */
  lemma OneType(idx: seq<Entry>, p: Id)
    ensures p !in Packs(idx) ==> AllOfType(idx, p, DataBlob) && AllOfType(idx, p, TreeBlob)
    ensures p in Packs(idx) ==> !(AllOfType(idx, p, DataBlob) && AllOfType(idx, p, TreeBlob))
  {
    if p in Packs(idx) {
      var e :| e in idx && e.pack == p;
      var i :| 0 <= i < |idx| && idx[i] == e;
    } else {
      assert forall i :: 0 <= i < |idx| ==> idx[i] in idx;
    }
  }

  lemma {:induction false} TypeIs(idx: seq<Entry>, p: Id, t: BlobType)
    requires t == DataBlob || t == TreeBlob
    requires forall i :: 0 <= i < |idx| ==> idx[i].h.tpe == DataBlob || idx[i].h.tpe == TreeBlob
    ensures TypeOf(idx, p) == NumBlobTypes <==> p !in Packs(idx)
    ensures p in Packs(idx) ==> (TypeOf(idx, p) == t <==> AllOfType(idx, p, t))
  {
    if idx != [] {
      var n := |idx| - 1;
      var before := idx[..n];
      TypeIs(before, p, DataBlob);
      TypeIs(before, p, TreeBlob);
      PacksSnoc(idx, p);
      TypesSnoc(idx, p, t);
      OneType(before, p);
      hide Packs, AllOfType;
    }
  }

  /** What the info of a pack says: how many of its entries are marked and how many are not, and
      their bytes, the header counted as used; its type, which is invalid if it has blobs of
      both types; and whether some blob is not compressed. */
  lemma PackInfoIs(idx: seq<Entry>, used: set<Handle>, marks: seq<bool>, p: Id)
    requires |marks| == |idx| && p in Packs(idx)
    requires forall i :: 0 <= i < |idx| ==> idx[i].h.tpe == DataBlob || idx[i].h.tpe == TreeBlob
    ensures var info := InfoOf(idx, used, marks, p);
      && info.usedBlobs == |Positions(idx, marks, p, true)| && info.unusedBlobs == |Positions(idx, marks, p, false)|
      && info.usedSize == HeaderBytes(idx, p) + Lengths(idx, marks, p, true)
      && info.unusedSize == Lengths(idx, marks, p, false)
      && (info.tpe == DataBlob <==> AllOfType(idx, p, DataBlob))
      && (info.tpe == TreeBlob <==> AllOfType(idx, p, TreeBlob))
      && (info.tpe == InvalidBlob <==> !AllOfType(idx, p, DataBlob) && !AllOfType(idx, p, TreeBlob))
      && (info.uncompressed <==> exists k :: 0 <= k < |idx| && idx[k].pack == p && !idx[k].compressed)
  {
    hide Total, TypeOf, AllOfType, HeaderBytes, Lengths, Positions, PackSize;
    assert idx[..|idx|] == idx && marks[..|idx|] == marks;
    SizesAre(idx, marks, p);
    CountsAre(idx, marks, p);
    TypeIs(idx, p, DataBlob);
    TypeIs(idx, p, TreeBlob);
  }

  // ----- What is known of all blobs -----

  /** How many entries are at these positions, or their bytes. */
  function SumAt(idx: seq<Entry>, bytes: bool, ks: set<nat>): nat {
    if idx == [] then 0
    else
      var n := |idx| - 1;
      SumAt(idx[..n], bytes, ks) + if n !in ks then 0 else if bytes then idx[n].length else 1
  }

  lemma {:induction false} TotalIsSum(t: Tally, idx: seq<Entry>, marks: seq<bool>, bytes: bool, ks: set<nat>)
    requires |marks| == |idx|
    requires forall k :: 0 <= k < |idx| ==>
      Worth(t, idx[k], marks[k]) == if k !in ks then 0 else if bytes then idx[k].length else 1
    ensures Total(t, idx, marks) == SumAt(idx, bytes, ks)
  {
    if idx != [] {
      TotalIsSum(t, idx[..|idx| - 1], marks[..|idx| - 1], bytes, ks);
    }
  }

  /** The statistics: marked entries count as used, other entries of used blobs as duplicate, and
      those of blobs that are not used as unused. */
  lemma StatsAre(idx: seq<Entry>, used: set<Handle>, marks: seq<bool>, bytes: bool)
    requires |marks| == |idx|
    ensures var s := StatsOf(idx, used, marks, bytes);
      && s.used == SumAt(idx, bytes, set k: nat | k < |idx| && marks[k])
      && s.dup == SumAt(idx, bytes, set k: nat | k < |idx| && !marks[k] && idx[k].h in used)
      && s.unused == SumAt(idx, bytes, set k: nat | k < |idx| && idx[k].h !in used)
  {
    assert idx[..|idx|] == idx && marks[..|idx|] == marks;
    TotalIsSum(AllUsed(bytes), idx, marks, bytes, set k: nat | k < |idx| && marks[k]);
    TotalIsSum(AllDuplicate(used, bytes), idx, marks, bytes, set k: nat | k < |idx| && !marks[k] && idx[k].h in used);
    TotalIsSum(AllUnused(used, bytes), idx, marks, bytes, set k: nat | k < |idx| && idx[k].h !in used);
  }
}
