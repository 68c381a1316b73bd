/** The vocabulary shared by the prune modules: blob handles, index entries and
    tallies over the in-memory index.

    The index is a sequence of entries in whatever order the in-memory index
    lists them.  A handle may be listed any number of times. */
module Repository {
  type Id = nat

  datatype BlobType = InvalidBlob | DataBlob | TreeBlob | NumBlobTypes

  datatype Handle = Handle(id: Id, tpe: BlobType)

  /** One index entry: a blob stored in a pack. */
  datatype Entry = Entry(h: Handle, pack: Id, length: nat, compressed: bool)

  datatype Option<+T> = None | Some(value: T)

  // Sizes in bytes of the parts of a pack header.
  const HEADER_SIZE: nat := 36
  const ENTRY_SIZE: nat := 41
  const PLAIN_ENTRY_SIZE: nat := 37

  function EntrySize(e: Entry): nat {
    if e.compressed then ENTRY_SIZE else PLAIN_ENTRY_SIZE
  }

  /** What is being added up over the index.  The boolean that accompanies each
      entry says whether the entry is counted as used. */
  datatype Tally =
    | Picked(h: Handle)                  // used entries of one blob
    | UsedBlobs(p: Id)
    | UnusedBlobs(p: Id)
    | DuplicateBlobs(p: Id, dups: set<Handle>)
    | UsedBytes(p: Id)
    | UnusedBytes(p: Id)
    | UnusedIn(ps: set<Id>, bytes: bool)  // not used, in one of some packs
    | AllUsed(bytes: bool)
    | AllDuplicate(used: set<Handle>, bytes: bool)
    | AllUnused(used: set<Handle>, bytes: bool)
    | AllBytes

  function Measure(bytes: bool, e: Entry): nat {
    if bytes then e.length else 1
  }

  function Worth(t: Tally, e: Entry, used: bool): nat {
    match t
    case Picked(h) => if e.h == h && used then 1 else 0
    case UsedBlobs(p) => if e.pack == p && used then 1 else 0
    case UnusedBlobs(p) => if e.pack == p && !used then 1 else 0
    case DuplicateBlobs(p, dups) => if e.pack == p && e.h in dups then 1 else 0
    case UsedBytes(p) => if e.pack == p && used then e.length else 0
    case UnusedBytes(p) => if e.pack == p && !used then e.length else 0
    case UnusedIn(ps, bytes) => if e.pack in ps && !used then Measure(bytes, e) else 0
    case AllUsed(bytes) => if used then Measure(bytes, e) else 0
    case AllDuplicate(hs, bytes) => if !used && e.h in hs then Measure(bytes, e) else 0
    case AllUnused(hs, bytes) => if e.h !in hs then Measure(bytes, e) else 0
    case AllBytes => e.length
  }

  function Total(t: Tally, idx: seq<Entry>, marks: seq<bool>): nat
    requires |idx| == |marks|
  {
    if idx == [] then 0
    else
      var n := |idx| - 1;
      Total(t, idx[..n], marks[..n]) + Worth(t, idx[n], marks[n])
  }

  /** How often a blob is listed. */
  function Copies(idx: seq<Entry>, h: Handle): nat {
    if idx == [] then 0
    else Copies(idx[..|idx| - 1], h) + if idx[|idx| - 1].h == h then 1 else 0
  }

  /** The size of a pack file as its index entries show it: the header, and the blobs
      unless only the header is asked for. */
  function PackSize(idx: seq<Entry>, p: Id, onlyHdr: bool): nat {
    if idx == [] then HEADER_SIZE
    else
      var e := idx[|idx| - 1];
      PackSize(idx[..|idx| - 1], p, onlyHdr)
      + if e.pack == p then EntrySize(e) + (if onlyHdr then 0 else e.length) else 0
  }

  function Handles(idx: seq<Entry>): set<Handle> {
    set e | e in idx :: e.h
  }

  function Packs(idx: seq<Entry>): set<Id> {
    set e | e in idx :: e.pack
  }

  lemma TotalSnoc(t: Tally, idx: seq<Entry>, marks: seq<bool>, i: nat)
    requires |idx| == |marks| && i < |idx|
    ensures Total(t, idx[..i + 1], marks[..i + 1])
         == Total(t, idx[..i], marks[..i]) + Worth(t, idx[i], marks[i])
  {
    assert idx[..i + 1][..i] == idx[..i];
    assert marks[..i + 1][..i] == marks[..i];
  }

  lemma TotalFull(t: Tally, idx: seq<Entry>, marks: seq<bool>)
    requires |idx| == |marks|
    ensures Total(t, idx[..|idx|], marks[..|idx|]) == Total(t, idx, marks)
  {
    assert idx[..|idx|] == idx && marks[..|idx|] == marks;
  }

  /** Changing one mark changes a total by the worth of that entry alone. */
  lemma {:induction false} TotalUpdate(t: Tally, idx: seq<Entry>, marks: seq<bool>, k: nat, b: bool)
    requires |idx| == |marks| && k < |idx|
    ensures Total(t, idx, marks[k := b])
         == Total(t, idx, marks) - Worth(t, idx[k], marks[k]) + Worth(t, idx[k], b)
    ensures Total(t, idx, marks) >= Worth(t, idx[k], marks[k])
  {
    var n := |idx| - 1;
    if k < n {
      TotalUpdate(t, idx[..n], marks[..n], k, b);
      assert marks[k := b][..n] == marks[..n][k := b];
    } else {
      assert marks[k := b][..n] == marks[..n];
    }
  }

  /** Totals that ignore the marks do not depend on them. */
  lemma {:induction false} TotalSameWorth(t: Tally, u: Tally, idx: seq<Entry>, m: seq<bool>, m': seq<bool>)
    requires |idx| == |m| == |m'|
    requires forall i :: 0 <= i < |idx| ==> Worth(t, idx[i], m[i]) == Worth(u, idx[i], m'[i])
    ensures Total(t, idx, m) == Total(u, idx, m')
  {
    if idx != [] {
      var n := |idx| - 1;
      TotalSameWorth(t, u, idx[..n], m[..n], m'[..n]);
    }
  }

  /** A total is the sum of two others when it is so entry by entry. */
  lemma {:induction false} TotalSplit(t: Tally, u: Tally, v: Tally, idx: seq<Entry>, marks: seq<bool>)
    requires |idx| == |marks|
    requires forall i :: 0 <= i < |idx| ==>
      Worth(t, idx[i], marks[i]) == Worth(u, idx[i], marks[i]) + Worth(v, idx[i], marks[i])
    ensures Total(t, idx, marks) == Total(u, idx, marks) + Total(v, idx, marks)
  {
    if idx != [] {
      var n := |idx| - 1;
      TotalSplit(t, u, v, idx[..n], marks[..n]);
    }
  }

  /** A positive total has an entry that contributes to it. */
  lemma {:induction false} TotalWitness(t: Tally, idx: seq<Entry>, marks: seq<bool>) returns (k: nat)
    requires |idx| == |marks|
    requires Total(t, idx, marks) > 0
    ensures k < |idx| && Worth(t, idx[k], marks[k]) > 0
  {
    var n := |idx| - 1;
    if Worth(t, idx[n], marks[n]) > 0 {
      k := n;
    } else {
      k := TotalWitness(t, idx[..n], marks[..n]);
    }
  }

  lemma {:induction false} TotalAtLeast(t: Tally, idx: seq<Entry>, marks: seq<bool>, k: nat)
    requires |idx| == |marks| && k < |idx|
    ensures Total(t, idx, marks) >= Worth(t, idx[k], marks[k])
  {
    TotalUpdate(t, idx, marks, k, marks[k]);
  }

  lemma {:induction false} CopiesListed(idx: seq<Entry>, h: Handle)
    ensures Copies(idx, h) > 0 <==> h in Handles(idx)
  {
    if idx != [] {
      var n := |idx| - 1;
      CopiesListed(idx[..n], h);
      assert idx == idx[..n] + [idx[n]];
    }
  }

  lemma {:induction false} CopiesMonotone(idx: seq<Entry>, h: Handle, i: nat)
    requires i <= |idx|
    ensures Copies(idx[..i], h) <= Copies(idx, h)
  {
    if i < |idx| {
      var n := |idx| - 1;
      CopiesMonotone(idx[..n], h, i);
      assert idx[..n][..i] == idx[..i];
    } else {
      assert idx[..i] == idx;
    }
  }

  lemma CopiesSnoc(idx: seq<Entry>, h: Handle, i: nat)
    requires i < |idx|
    ensures Copies(idx[..i + 1], h) == Copies(idx[..i], h) + if idx[i].h == h then 1 else 0
    ensures Copies(idx[..i + 1], h) <= Copies(idx, h)
  {
    assert idx[..i + 1][..i] == idx[..i];
    CopiesMonotone(idx, h, i + 1);
  }
}
