/** The pack files and index files of a repository, as they are on disk, and what it takes
    that blobs are found through them. */
module IndexFiles {
  import opened Repository

  /** What an index file says: a blob is in a pack. */
  datatype Location = Location(h: Handle, pack: Id)

  /** The pack files with the blobs they hold, and the index files. */
  datatype Snapshot = Snapshot(packs: map<Id, set<Handle>>, indexes: map<Id, set<Location>>)

  ghost predicate Holds(f: Snapshot, l: Location) {
    l.pack in f.packs && l.h in f.packs[l.pack]
  }

  /** The blob can be found through an index file in a pack outside `doomed`. */
  ghost predicate Found(f: Snapshot, indexes: set<Id>, doomed: set<Id>, h: Handle) {
    exists i, l :: i in indexes && i in f.indexes && l in f.indexes[i] && l.h == h && l.pack !in doomed && Holds(f, l)
  }

  ghost predicate Resolves(f: Snapshot, h: Handle) {
    Found(f, f.indexes.Keys, {}, h)
  }

  /** No used blob is lost. */
  ghost predicate Safe(f: Snapshot, used: set<Handle>) {
    forall h :: h in used ==> Resolves(f, h)
  }

  /** Every used blob can be found without the packs about to go. */
  ghost predicate Secured(f: Snapshot, indexes: set<Id>, doomed: set<Id>, used: set<Handle>) {
    forall h :: h in used ==> Found(f, indexes, doomed, h)
  }

  /** The index files that list the pack agree that the blob is in it. */
  ghost predicate Agreed(f: Snapshot, l: Location) {
    forall i :: i in f.indexes && l.pack in PacksIn(f.indexes[i]) ==> l in f.indexes[i]
  }

  /** Some listed packs outside `doomed` hold the blob, and they vouch for it together: an index file
      that lists any of them says of one of them that the blob is in it. */
  ghost predicate Vouched(f: Snapshot, doomed: set<Id>, h: Handle, packs: set<Id>) {
    && packs != {} && packs <= Mentioned(f) && packs !! doomed
    && (forall p :: p in packs ==> Holds(f, Location(h, p)))
    && forall i :: i in f.indexes && PacksIn(f.indexes[i]) * packs != {} ==> ListedIn(f.indexes[i], h, packs)
  }

  ghost predicate ListedIn(locations: set<Location>, h: Handle, packs: set<Id>) {
    exists p :: p in packs && Location(h, p) in locations
  }

  /** As `Found`, whichever of the index files is believed. */
  ghost predicate FoundSurely(f: Snapshot, doomed: set<Id>, h: Handle) {
    exists packs :: Vouched(f, doomed, h, packs)
  }

  ghost predicate Sure(f: Snapshot, doomed: set<Id>, used: set<Handle>) {
    forall h :: h in used ==> FoundSurely(f, doomed, h)
  }

  /** One entry that all index files agree on is enough. */
  lemma AgreedIsFoundSurely(f: Snapshot, doomed: set<Id>, i: Id, l: Location)
    requires i in f.indexes && l in f.indexes[i] && Agreed(f, l) && Holds(f, l) && l.pack !in doomed
    ensures FoundSurely(f, doomed, l.h)
  {
    assert l.pack in Mentioned(f);
    forall j | j in f.indexes && PacksIn(f.indexes[j]) * {l.pack} != {}
      ensures ListedIn(f.indexes[j], l.h, {l.pack})
    {
      assert l in f.indexes[j];
      assert l == Location(l.h, l.pack);
    }
    assert Vouched(f, doomed, l.h, {l.pack});
  }

  lemma SomeLister(f: Snapshot, packs: set<Id>) returns (i: Id)
    requires packs != {} && packs <= Mentioned(f)
    ensures i in f.indexes && PacksIn(f.indexes[i]) * packs != {}
  {
    var p :| p in packs;
    var j, l :| j in f.indexes && l in f.indexes[j] && l.pack == p;
    i := j;
    assert p in PacksIn(f.indexes[i]) * packs;
  }

  lemma SureIsSecured(f: Snapshot, doomed: set<Id>, used: set<Handle>)
    requires Sure(f, doomed, used)
    ensures Secured(f, f.indexes.Keys, doomed, used)
  {
    hide PacksIn, Mentioned;
    forall h | h in used
      ensures Found(f, f.indexes.Keys, doomed, h)
    {
      var packs :| Vouched(f, doomed, h, packs);
      var i := SomeLister(f, packs);
      assert ListedIn(f.indexes[i], h, packs);
      var p :| p in packs && Location(h, p) in f.indexes[i];
      assert i in f.indexes.Keys && Holds(f, Location(h, p));
    }
  }

  /** None of the index files mentions one of the packs. */
  ghost predicate Clean(f: Snapshot, indexes: set<Id>, packs: set<Id>) {
    forall i, l :: i in indexes && i in f.indexes && l in f.indexes[i] ==> l.pack !in packs
  }

  function Mentioned(f: Snapshot): set<Id> {
    set i, l | i in f.indexes && l in f.indexes[i] :: l.pack
  }

  function PacksIn(locations: set<Location>): set<Id> {
    set l | l in locations :: l.pack
  }

  function Without(locations: set<Location>, packs: set<Id>): set<Location> {
    set l | l in locations && l.pack !in packs
  }

  lemma SecuredIsSafe(f: Snapshot, indexes: set<Id>, doomed: set<Id>, used: set<Handle>)
    requires Secured(f, indexes, doomed, used)
    ensures Safe(f, used)
  {
    forall h | h in used
      ensures Resolves(f, h)
    {
      var i, l :| i in indexes && i in f.indexes && l in f.indexes[i] && l.h == h && l.pack !in doomed && Holds(f, l);
    }
  }

  /** The backend: four operations, each of which is one step on disk. */
  class Disk {
    var files: Snapshot
    ghost var history: seq<Snapshot>

    constructor (f: Snapshot)
      ensures files == f && history == [f]
    {
      files, history := f, [f];
    }

    method RemovePack(id: Id)
      modifies this
      ensures files == old(files).(packs := old(files).packs - {id})
      ensures history == old(history) + [files]
    {
      files := files.(packs := files.packs - {id});
      history := history + [files];
    }

    method SavePack(id: Id, blobs: set<Handle>)
      modifies this
      ensures files == old(files).(packs := old(files).packs[id := blobs])
      ensures history == old(history) + [files]
    {
      files := files.(packs := files.packs[id := blobs]);
      history := history + [files];
    }

    method RemoveIndex(id: Id)
      modifies this
      ensures files == old(files).(indexes := old(files).indexes - {id})
      ensures history == old(history) + [files]
    {
      files := files.(indexes := files.indexes - {id});
      history := history + [files];
    }

    method SaveIndex(id: Id, locations: set<Location>)
      modifies this
      ensures files == old(files).(indexes := old(files).indexes[id := locations])
      ensures history == old(history) + [files]
    {
      files := files.(indexes := files.indexes[id := locations]);
      history := history + [files];
    }
  }

  /** The states recorded since there were `n`. */
  ghost predicate SafeSince(history: seq<Snapshot>, n: nat, used: set<Handle>) {
    n <= |history| && forall i :: n <= i < |history| ==> Safe(history[i], used)
  }

  /** `f` still has the index files of `f0`, and its packs except those in `gone`. */
  ghost predicate Extends(f: Snapshot, f0: Snapshot, gone: set<Id>) {
    && (forall i :: i in f0.indexes ==> i in f.indexes && f.indexes[i] == f0.indexes[i])
    && (forall p :: p in f0.packs && p !in gone ==> p in f.packs && f.packs[p] == f0.packs[p])
  }

  lemma ExtendsKeepsFound(f: Snapshot, f0: Snapshot, gone: set<Id>, doomed: set<Id>, used: set<Handle>)
    requires Extends(f, f0, gone) && gone <= doomed
    requires Secured(f0, f0.indexes.Keys, doomed, used)
    ensures Secured(f, f.indexes.Keys, doomed, used)
  {
    forall h | h in used
      ensures Found(f, f.indexes.Keys, doomed, h)
    {
      var i, l :| i in f0.indexes.Keys && i in f0.indexes && l in f0.indexes[i] && l.h == h && l.pack !in doomed &&
        Holds(f0, l);
      assert i in f.indexes.Keys && l in f.indexes[i] && Holds(f, l);
    }
  }

  /** The index files that `f` has besides those of `f0` only list packs that `f0` did not list. */
  ghost predicate Grown(f: Snapshot, f0: Snapshot) {
    && (forall i :: i in f0.indexes ==> i in f.indexes && f.indexes[i] == f0.indexes[i])
    && (forall i, l :: i in f.indexes && i !in f0.indexes && l in f.indexes[i] ==> l.pack !in Mentioned(f0))
  }

  lemma StillVouched(f: Snapshot, f0: Snapshot, gone: set<Id>, doomed: set<Id>, h: Handle, packs: set<Id>)
    requires Extends(f, f0, gone) && gone <= doomed && Grown(f, f0)
    requires Vouched(f0, doomed, h, packs)
    ensures Vouched(f, doomed, h, packs)
  {
    hide ListedIn;
    forall i | i in f.indexes && i !in f0.indexes
      ensures PacksIn(f.indexes[i]) !! Mentioned(f0)
    {
    }
    assert forall p :: p in packs ==> Holds(f0, Location(h, p));
  }

  lemma GrownKeepsSure(f: Snapshot, f0: Snapshot, gone: set<Id>, doomed: set<Id>, used: set<Handle>)
    requires Extends(f, f0, gone) && gone <= doomed && Grown(f, f0)
    requires Sure(f0, doomed, used)
    ensures Sure(f, doomed, used)
  {
    forall h | h in used
      ensures FoundSurely(f, doomed, h)
    {
      var packs :| Vouched(f0, doomed, h, packs);
      StillVouched(f, f0, gone, doomed, h, packs);
    }
  }

  lemma GrownTransitive(f: Snapshot, g: Snapshot, h: Snapshot)
    requires Grown(g, f) && Grown(h, g)
    ensures Grown(h, f)
  {
    assert Mentioned(f) <= Mentioned(g);
  }

  /** An identifier that was not used so far. */
  method FreshId(used: set<Id>) returns (id: Id)
    ensures id !in used
  {
    id := 0;
    var todo := used;
    while todo != {}
      invariant todo <= used
      invariant forall x :: x in used && x !in todo ==> x < id
    {
      var x :| x in todo;
      if x >= id {
        id := x + 1;
      }
      todo := todo - {x};
    }
  }
}
