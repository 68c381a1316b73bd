/** Carrying out a prune plan (PrunePlan.Execute) on a disk whose every state is recorded.

    A crash leaves one of the recorded states behind, so a property of all of them is a
    property of every crash. */
module PruneExecute {
  import opened Repository
  import opened Repack
  import opened IndexFiles
  import opened IndexRewrite

  datatype Outcome = Completed | Cancelled | RepackFailed | BlobsNotRepacked | RewriteFailed

  /** Deletes pack files in any order; a file that cannot be deleted is only reported. */
  method DeletePacks(disk: Disk, packs: set<Id>, ghost f0: Snapshot, ghost doomed: set<Id>, ghost used: set<Handle>)
    returns (failed: set<Id>)
    requires packs <= doomed && Extends(disk.files, f0, doomed) && Secured(f0, f0.indexes.Keys, doomed, used)
    modifies disk
    ensures Extends(disk.files, f0, doomed)
    ensures old(disk.history) <= disk.history && SafeSince(disk.history, |old(disk.history)|, used)
    ensures disk.files.indexes == old(disk.files).indexes
    ensures forall p :: p in old(disk.files).packs && p !in packs ==>
      p in disk.files.packs && disk.files.packs[p] == old(disk.files).packs[p]
    ensures disk.files.packs.Keys <= old(disk.files).packs.Keys
    ensures failed <= packs && forall p :: p in packs ==> p in failed || p !in disk.files.packs
  {
    var todo := packs;
    failed := {};
    while todo != {}
      invariant todo <= packs
      invariant Extends(disk.files, f0, doomed)
      invariant old(disk.history) <= disk.history && SafeSince(disk.history, |old(disk.history)|, used)
      invariant disk.files.indexes == old(disk.files).indexes
      invariant forall p :: p in old(disk.files).packs && p !in packs ==>
        p in disk.files.packs && disk.files.packs[p] == old(disk.files).packs[p]
      invariant disk.files.packs.Keys <= old(disk.files).packs.Keys
      invariant failed <= packs && forall p :: p in packs && p !in todo ==> p in failed || p !in disk.files.packs
    {
      var id :| id in todo;
      if * {
        disk.RemovePack(id);
        ExtendsKeepsFound(disk.files, f0, doomed, doomed, used);
        SecuredIsSafe(disk.files, disk.files.indexes.Keys, doomed, used);
      } else {
        failed := failed + {id};
      }
      todo := todo - {id};
    }
  }

  /** Runs the repack goroutines in the order of some schedule; a goroutine that fails or a
      cancelled context stops the schedule early. */
  method RunRepack(keep: set<Handle>, packs: seq<seq<Handle>>, workers: nat, schedule: seq<Step>)
    returns (ok: bool, s: State)
    ensures ok ==> SavedOnce(s, keep, packs)
    ensures forall h :: h in s.saved ==> h in keep
  {
    s := State(keep, packs, None, seq(workers, i => Idle), []);
    InitInv(s, keep, packs);
    for i := 0 to |schedule|
      invariant Inv(s, keep, packs)
    {
      if !Enabled(s, schedule[i]) {
        return false, s;
      }
      StepInv(s, schedule[i], keep, packs);
      s := Apply(s, schedule[i]);
    }
    ok := Done(s);
    if ok {
      assert forall h :: !InFlight(s, h) && !Pending(s, h);
    }
  }

  /** Uploads blobs in one new pack, and then an index file for it. */
  method UploadPack(disk: Disk, blobs: set<Handle>, avoid: set<Id>, ghost found: set<Handle>,
                    ghost f0: Snapshot, ghost gone: set<Id>, ghost used: set<Handle>)
    requires Extends(disk.files, f0, gone) && Secured(f0, f0.indexes.Keys, gone, used)
    requires Sure(disk.files, avoid, found)
    modifies disk
    ensures Extends(disk.files, f0, gone) && Grown(disk.files, old(disk.files))
    ensures old(disk.history) <= disk.history && SafeSince(disk.history, |old(disk.history)|, used)
    ensures Sure(disk.files, avoid, found + blobs)
    ensures forall p :: p in avoid && p in disk.files.packs ==> p in old(disk.files).packs
  {
    hide Extends, Secured, Found, Safe, Sure, Grown;
    var pid := FreshId(disk.files.packs.Keys + Mentioned(disk.files) + avoid);
    PackAdded(disk.files, pid, blobs, f0, gone, used);
    disk.SavePack(pid, blobs);
    var iid := FreshId(disk.files.indexes.Keys);
    IndexAdded(old(disk.files), pid, blobs, iid, avoid, found, f0, gone, used);
    disk.SaveIndex(iid, set b | b in blobs :: Location(b, pid));
  }

  lemma PackAdded(f: Snapshot, pid: Id, blobs: set<Handle>, f0: Snapshot, gone: set<Id>, used: set<Handle>)
    requires Extends(f, f0, gone) && Secured(f0, f0.indexes.Keys, gone, used) && pid !in f.packs
    ensures var g := f.(packs := f.packs[pid := blobs]);
      Extends(g, f0, gone) && Safe(g, used)
  {
    var g := f.(packs := f.packs[pid := blobs]);
    ExtendsKeepsFound(g, f0, gone, gone, used);
    SecuredIsSafe(g, g.indexes.Keys, gone, used);
  }

  lemma IndexAdded(before: Snapshot, pid: Id, blobs: set<Handle>, iid: Id, avoid: set<Id>, found: set<Handle>,
                   f0: Snapshot, gone: set<Id>, used: set<Handle>)
    requires Extends(before, f0, gone) && Secured(f0, f0.indexes.Keys, gone, used)
    requires Sure(before, avoid, found)
    requires pid !in before.packs && pid !in avoid && pid !in Mentioned(before) && iid !in before.indexes
    ensures var f :=
      Snapshot(before.packs[pid := blobs], before.indexes[iid := set b | b in blobs :: Location(b, pid)]);
      && Extends(f, f0, gone) && Grown(f, before) && Safe(f, used)
      && Sure(f, avoid, found + blobs)
  {
    hide Sure, Secured, Safe, Found;
    var f := Snapshot(before.packs[pid := blobs], before.indexes[iid := set b | b in blobs :: Location(b, pid)]);
    assert Extends(f, f0, gone) && Extends(f, before, {}) && Grown(f, before);
    ExtendsKeepsFound(f, f0, gone, gone, used);
    SecuredIsSafe(f, f.indexes.Keys, gone, used);
    NewlyFound(before, f, avoid, found, blobs, pid, iid);
  }

  lemma NothingToFind(f: Snapshot, avoid: set<Id>)
    ensures Sure(f, avoid, {}) && Grown(f, f)
  {
  }

  /** Uploads the saved blobs in any number of packs, as far as it gets. */
  method Upload(disk: Disk, saved: set<Handle>, avoid: set<Id>, ghost f0: Snapshot, ghost gone: set<Id>,
                ghost used: set<Handle>)
    returns (ok: bool)
    requires Extends(disk.files, f0, gone) && Secured(f0, f0.indexes.Keys, gone, used)
    modifies disk
    ensures Extends(disk.files, f0, gone) && Grown(disk.files, old(disk.files))
    ensures old(disk.history) <= disk.history && SafeSince(disk.history, |old(disk.history)|, used)
    ensures ok ==> Sure(disk.files, avoid, saved)
    ensures forall p :: p in avoid && p in disk.files.packs ==> p in old(disk.files).packs
  {
    hide Extends, Secured, Found, Safe, Sure, Grown;
    var todo := saved;
    assert saved - todo == {};
    NothingToFind(disk.files, avoid);
    while todo != {}
      invariant todo <= saved
      invariant Extends(disk.files, f0, gone) && Grown(disk.files, old(disk.files))
      invariant old(disk.history) <= disk.history && SafeSince(disk.history, |old(disk.history)|, used)
      invariant Sure(disk.files, avoid, saved - todo)
      invariant forall p :: p in avoid && p in disk.files.packs ==> p in old(disk.files).packs
    {
      if * {
        return false;
      }
      var h :| h in todo;
      var more: set<Handle> := *;
      var blobs := {h} + more * todo;
      ghost var before := disk.files;
      UploadPack(disk, blobs, avoid, saved - todo, f0, gone, used);
      GrownTransitive(old(disk.files), before, disk.files);
      assert saved - (todo - blobs) == saved - todo + blobs;
      todo := todo - blobs;
    }
    assert saved - todo == saved;
    return true;
  }

  lemma NewlyFound(before: Snapshot, f: Snapshot, avoid: set<Id>, found: set<Handle>, blobs: set<Handle>,
                   pid: Id, iid: Id)
    requires Extends(f, before, {}) && Grown(f, before) && Sure(before, avoid, found)
    requires pid !in avoid && pid in f.packs && f.packs[pid] == blobs && pid !in Mentioned(before)
    requires iid in f.indexes && f.indexes[iid] == set b | b in blobs :: Location(b, pid)
    requires f.indexes.Keys == before.indexes.Keys + {iid}
    ensures Sure(f, avoid, found + blobs)
  {
    GrownKeepsSure(f, before, {}, avoid, found);
    forall h | h in blobs
      ensures FoundSurely(f, avoid, h)
    {
      var l := Location(h, pid);
      assert l in f.indexes[iid] && Holds(f, l);
      assert Agreed(f, l) by {
        forall i | i in f.indexes && pid in PacksIn(f.indexes[i])
          ensures l in f.indexes[i]
        {
          assert i != iid ==> pid in Mentioned(before);
        }
      }
      AgreedIsFoundSurely(f, avoid, iid, l);
    }
  }

  // ----- The whole run -----

  /** Each used blob is either found outside all the packs that go, or is to be kept and one
      of the repacked packs holds it. */
  ghost predicate Ready(f: Snapshot, removeFirst: set<Id>, remove: set<Id>, repack: set<Id>, ignore: set<Id>,
                        keepBlobs: set<Handle>, packBlobs: seq<seq<Handle>>, used: set<Handle>) {
    && Secured(f, f.indexes.Keys, removeFirst, used)
    && Sure(f, removeFirst + remove + repack + ignore, used - keepBlobs)
    && keepBlobs <= Contents(packBlobs)
    && (repack == {} ==> keepBlobs == {})
  }

  lemma ExtendsSelf(f: Snapshot, gone: set<Id>)
    ensures Extends(f, f, gone)
  {
  }

  lemma SameIndexes(f: Snapshot, g: Snapshot)
    requires g.indexes == f.indexes
    ensures Grown(g, f)
  {
  }

  class PrunePlan {
    var removePacksFirst: set<Id>
    var removePacks: set<Id>
    var repackPacks: set<Id>
    var ignorePacks: set<Id>
    var keepBlobs: set<Handle>

    constructor (removeFirst: set<Id>, remove: set<Id>, repack: set<Id>, ignore: set<Id>, keep: set<Handle>)
      ensures removePacksFirst == removeFirst && removePacks == remove && repackPacks == repack
      ensures ignorePacks == ignore && keepBlobs == keep
    {
      removePacksFirst, removePacks, repackPacks, ignorePacks, keepBlobs := removeFirst, remove, repack, ignore, keep;
    }

    /** All packs that are not going to stay. */
    ghost function Doomed(): set<Id>
      reads this
    {
      removePacksFirst + removePacks + repackPacks + ignorePacks
    }

    ghost predicate ReadyFor(f: Snapshot, packBlobs: seq<seq<Handle>>, used: set<Handle>)
      reads this
    {
      Ready(f, removePacksFirst, removePacks, repackPacks, ignorePacks, keepBlobs, packBlobs, used)
    }

    /** Deletes unreferenced packs, repacks, rewrites the index and deletes the old packs.
        Every state of the disk on the way, whatever fails, still has every used blob. */
    method Execute(disk: Disk, packBlobs: seq<seq<Handle>>, workers: nat, schedule: seq<Step>, ghost used: set<Handle>)
      returns (out: Outcome, failed: set<Id>)
      requires ReadyFor(disk.files, packBlobs, used)
      modifies this, disk
      ensures old(disk.history) <= disk.history && SafeSince(disk.history, |old(disk.history)|, used)
      ensures out != BlobsNotRepacked
      ensures out == Completed ==>
        && removePacks == old(removePacks) + old(repackPacks)
        && (old(ignorePacks) + removePacks != {} ==>
          Clean(disk.files, disk.files.indexes.Keys, old(ignorePacks) + removePacks))
        && Secured(disk.files, disk.files.indexes.Keys, old(ignorePacks) + removePacks, used)
        && (forall p :: p in old(removePacksFirst) + removePacks ==> p in failed || p !in disk.files.packs)
    {
      hide Secured, Sure, Found, Safe, Grown, Extends, Clean, Rewritten;
      ghost var f0, doomed := disk.files, Doomed();
      failed := {};
      var first := removePacksFirst;
      ExtendsSelf(f0, removePacksFirst);
      if removePacksFirst != {} {
        failed := DeletePacks(disk, removePacksFirst, f0, removePacksFirst, used);
        removePacksFirst := {};
      }
      SameIndexes(f0, disk.files);
      if * {
        return Cancelled, failed;
      }
      out := DoRepack(disk, packBlobs, workers, schedule, f0, first, used);
      if out != Completed {
        return;
      }
      SureIsSecured(disk.files, ignorePacks + removePacks, used);
      ignorePacks := if ignorePacks == {} then removePacks else ignorePacks + removePacks;
      assert ignorePacks == old(ignorePacks) + removePacks;
      if ignorePacks != {} {
        var rewritten;
        ghost var order;
        rewritten, order := RewriteIndex(disk, ignorePacks, used);
        if !rewritten {
          return RewriteFailed, failed;
        }
      }
      ghost var f1 := disk.files;
      if removePacks != {} {
        ExtendsSelf(f1, ignorePacks);
        var alsoFailed := DeletePacks(disk, removePacks, f1, ignorePacks, used);
        failed := failed + alsoFailed;
        ExtendsKeepsFound(disk.files, f1, ignorePacks, ignorePacks, used);
        CleanIndexes(f1, disk.files, ignorePacks);
      }
      if * {
        return Cancelled, failed;
      }
      return Completed, failed;
    }

    /** The repacking part of Execute. */
    method DoRepack(disk: Disk, packBlobs: seq<seq<Handle>>, workers: nat, schedule: seq<Step>,
                    ghost f0: Snapshot, gone: set<Id>, ghost used: set<Handle>)
      returns (out: Outcome)
      requires Ready(f0, gone, removePacks, repackPacks, ignorePacks, keepBlobs, packBlobs, used)
      requires Extends(disk.files, f0, gone) && Grown(disk.files, f0)
      modifies this, disk
      ensures removePacksFirst == old(removePacksFirst) && ignorePacks == old(ignorePacks)
      ensures old(disk.history) <= disk.history && SafeSince(disk.history, |old(disk.history)|, used)
      ensures out == Completed || out == RepackFailed
      ensures forall p :: p in gone && p in disk.files.packs ==> p in old(disk.files).packs
      ensures out == Completed ==>
        && removePacks == old(removePacks) + old(repackPacks)
        && Sure(disk.files, ignorePacks + removePacks, used)
    {
      hide Secured, Sure, Found, Safe, Grown, Extends, Clean, Contents;
      ghost var doomed := gone + removePacks + repackPacks + ignorePacks;
      ghost var keep0 := keepBlobs;
      var avoid := removePacks + repackPacks + ignorePacks;
      if repackPacks != {} {
        var ok, s := RunRepack(keepBlobs, packBlobs, workers, schedule);
        var saved := set h | h in s.saved;
        ghost var before := disk.files;
        // new packs have names that were never used
        assert avoid + gone == doomed;
        var uploaded := Upload(disk, saved, avoid + gone, f0, gone, used);
        GrownTransitive(f0, before, disk.files);
        if !ok || !uploaded {
          return RepackFailed;
        }
        removePacks := removePacks + repackPacks;
        repackPacks := {};
        keepBlobs := s.keep;
        assert saved == keep0 && keepBlobs == {} by {
          AllSaved(keep0, packBlobs, s);
        }
        if keepBlobs != {} {
          return BlobsNotRepacked;
        }
      }
      GrownKeepsSure(disk.files, f0, gone, doomed, used - keep0);
      RemainsFound(disk.files, doomed, avoid, used, keep0);
      assert avoid == ignorePacks + removePacks;
      return Completed;
    }
  }

  lemma RemainsFound(f: Snapshot, doomed: set<Id>, avoid: set<Id>, used: set<Handle>, saved: set<Handle>)
    requires Sure(f, doomed, used - saved) && avoid <= doomed
    requires Sure(f, doomed, saved) || saved == {}
    ensures Sure(f, avoid, used)
  {
    hide Mentioned, PacksIn, ListedIn;
    forall h | h in used
      ensures FoundSurely(f, avoid, h)
    {
      assert h !in saved ==> h in used - saved;
      assert FoundSurely(f, doomed, h);
      var packs :| Vouched(f, doomed, h, packs);
      assert Vouched(f, avoid, h, packs);
    }
  }

  /** The packs hold every blob to keep, so all are saved and none is left over. */
  lemma AllSaved(keep: set<Handle>, packBlobs: seq<seq<Handle>>, s: State)
    requires SavedOnce(s, keep, packBlobs) && keep <= Contents(packBlobs)
    ensures (set h | h in s.saved) == keep && s.keep == {}
  {
  }

  lemma CleanIndexes(f: Snapshot, g: Snapshot, packs: set<Id>)
    requires g.indexes == f.indexes
    ensures Clean(f, f.indexes.Keys, packs) ==> Clean(g, g.indexes.Keys, packs)
  {
  }
}
