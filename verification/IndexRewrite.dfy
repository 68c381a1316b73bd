/** Rewriting the index (MasterIndex.Rewrite): new index files are saved, with each pack once and
    without the excluded packs, and then the old ones are deleted. */
module IndexRewrite {
  import opened Repository
  import opened IndexFiles

  /** Some index file says that the blob is in the pack. */
  ghost predicate Lists(f: Snapshot, indexes: set<Id>, l: Location) {
    exists i :: i in indexes && i in f.indexes && l in f.indexes[i]
  }

  ghost function PacksListed(f: Snapshot, indexes: set<Id>): set<Id> {
    set i, l | i in indexes && i in f.indexes && l in f.indexes[i] :: l.pack
  }

  function Seen(order: seq<Id>): set<Id> {
    set id | id in order
  }

  /** Position `n` holds the first of the index files that lists the pack. */
  ghost predicate FirstLister(f: Snapshot, order: seq<Id>, n: nat, pack: Id) {
    && n < |order| && order[n] in f.indexes && pack in PacksIn(f.indexes[order[n]])
    && pack !in PacksListed(f, Seen(order[..n]))
  }

  /** The first of the index files that lists the pack says that the blob is in it. */
  ghost predicate Kept(f: Snapshot, order: seq<Id>, l: Location) {
    exists n: nat :: FirstLister(f, order, n, l.pack) && l in f.indexes[order[n]]
  }

  /** An order in which all index files can be processed. */
  ghost predicate IsOrder(f: Snapshot, order: seq<Id>) {
    Ordered(order, f.indexes.Keys)
  }

  ghost predicate Ordered(order: seq<Id>, ids: set<Id>) {
    Seen(order) == ids && forall m, n :: 0 <= m < n < |order| ==> order[m] != order[n]
  }

  lemma SeenSnoc(order: seq<Id>, id: Id)
    ensures Seen(order + [id]) == Seen(order) + {id}
  {
  }

  lemma SeenCons(order: seq<Id>, id: Id)
    ensures Seen([id] + order) == {id} + Seen(order)
  {
    assert forall x :: x in [id] + order <==> x == id || x in order;
  }

  lemma PacksListedAdd(f: Snapshot, indexes: set<Id>, id: Id)
    requires id in f.indexes
    ensures PacksListed(f, indexes + {id}) == PacksListed(f, indexes) + PacksIn(f.indexes[id])
  {
    forall p | p in PacksIn(f.indexes[id])
      ensures p in PacksListed(f, indexes + {id})
    {
      var l :| l in f.indexes[id] && l.pack == p;
    }
  }

  lemma KeptSnoc(f: Snapshot, order: seq<Id>, id: Id, l: Location)
    requires id in f.indexes
    ensures Kept(f, order + [id], l) <==>
      Kept(f, order, l) || (l in f.indexes[id] && l.pack !in PacksListed(f, Seen(order)))
  {
    hide PacksListed, Seen;
    var more, last := order + [id], |order|;
    assert more[..last] == order;
    forall n: nat | n < last
      ensures FirstLister(f, more, n, l.pack) <==> FirstLister(f, order, n, l.pack)
    {
      assert more[..n] == order[..n] && more[n] == order[n];
    }
    if Kept(f, order, l) {
      var n: nat :| FirstLister(f, order, n, l.pack) && l in f.indexes[order[n]];
      assert FirstLister(f, more, n, l.pack);
    }
    if l in f.indexes[id] && l.pack !in PacksListed(f, Seen(order)) {
      assert FirstLister(f, more, last, l.pack);
    }
  }

  /** The first file that lists one of the packs, if there is one. */
  lemma {:induction false} FirstToList(f: Snapshot, order: seq<Id>, packs: set<Id>) returns (n: nat)
    requires packs * PacksListed(f, Seen(order)) != {} && forall id :: id in order ==> id in f.indexes
    ensures n < |order| && order[n] in f.indexes && PacksIn(f.indexes[order[n]]) * packs != {}
    ensures forall p :: p in packs ==> p !in PacksListed(f, Seen(order[..n]))
  {
    hide PacksListed, PacksIn;
    assert order != [] by {
      if order == [] {
        NoneListed(f, Seen(order));
      }
    }
    var last := |order| - 1;
    assert order == order[..last] + [order[last]];
    SeenSnoc(order[..last], order[last]);
    PacksListedAdd(f, Seen(order[..last]), order[last]);
    if packs * PacksListed(f, Seen(order[..last])) != {} {
      n := FirstToList(f, order[..last], packs);
      assert order[..n] == order[..last][..n];
    } else {
      n := last;
      forall p | p in packs
        ensures p !in PacksListed(f, Seen(order[..n]))
      {
        assert p in packs * PacksListed(f, Seen(order[..n])) <==> p in PacksListed(f, Seen(order[..n]));
      }
    }
  }

  lemma NoneListed(f: Snapshot, indexes: set<Id>)
    requires indexes == {}
    ensures PacksListed(f, indexes) == {}
  {
  }

  lemma NothingListed(f: Snapshot)
    ensures Seen([]) == {} && PacksListed(f, Seen([])) == {}
  {
  }

  lemma {:induction false} SomeOrder(ids: set<Id>) returns (order: seq<Id>)
    ensures Ordered(order, ids)
  {
    if ids == {} {
      order := [];
    } else {
      var id :| id in ids;
      var rest := SomeOrder(ids - {id});
      order := [id] + rest;
      SeenCons(rest, id);
      assert forall x :: x in rest ==> x in Seen(rest);
    }
  }

  lemma OrderedSnoc(order: seq<Id>, ids: set<Id>, id: Id)
    requires Ordered(order, ids) && id !in ids
    ensures Ordered(order + [id], ids + {id}) && Seen(order) == ids
  {
    SeenSnoc(order, id);
    assert forall m :: 0 <= m < |order| ==> order[m] in Seen(order);
  }

  /** An order that begins in a given way. */
  lemma Completed(f: Snapshot, order: seq<Id>) returns (all: seq<Id>)
    requires Ordered(order, Seen(order)) && Seen(order) <= f.indexes.Keys
    ensures IsOrder(f, all) && order <= all
  {
    var rest := SomeOrder(f.indexes.Keys - Seen(order));
    all := order + rest;
    assert Seen(all) == Seen(order) + Seen(rest) by {
      assert forall x :: x in all <==> x in order || x in rest;
    }
    forall m, n | 0 <= m < n < |all|
      ensures all[m] != all[n]
    {
      if m < |order| <= n {
        assert all[m] in Seen(order) && all[n] == rest[n - |order|] && rest[n - |order|] in Seen(rest);
      }
    }
  }

  // ----- What is found afterwards -----

  /** After processing the index files in this order the blob is still found. */
  ghost predicate FoundInOrder(f: Snapshot, order: seq<Id>, exclude: set<Id>, h: Handle) {
    exists l :: Kept(f, order, l) && l.h == h && l.pack !in exclude && Holds(f, l)
  }

  lemma VouchedIsFound(f: Snapshot, order: seq<Id>, exclude: set<Id>, h: Handle, packs: set<Id>)
    requires IsOrder(f, order) && Vouched(f, exclude, h, packs)
    ensures exists p :: p in packs && Kept(f, order, Location(h, p))
    ensures FoundInOrder(f, order, exclude, h)
  {
    hide Mentioned;
    assert forall id :: id in order ==> id in Seen(order);
    AllListed(f);
    var q :| q in packs;
    assert q in packs * PacksListed(f, Seen(order));
    var n := FirstToList(f, order, packs);
    assert ListedIn(f.indexes[order[n]], h, packs);
    var p :| p in packs && Location(h, p) in f.indexes[order[n]];
    assert p in PacksIn(f.indexes[order[n]]) by {
      assert Location(h, p).pack == p;
    }
    assert FirstLister(f, order, n, p);
    assert Kept(f, order, Location(h, p)) && Holds(f, Location(h, p));
  }

  lemma AllListed(f: Snapshot)
    ensures PacksListed(f, f.indexes.Keys) == Mentioned(f)
  {
  }

  /** The first file that lists the pack does not say that the blob is in it. */
  ghost predicate Spoiled(f: Snapshot, order: seq<Id>, h: Handle, p: Id) {
    exists n: nat :: FirstLister(f, order, n, p) && Location(h, p) !in f.indexes[order[n]]
  }

  lemma SpoiledForGood(f: Snapshot, order: seq<Id>, all: seq<Id>, h: Handle, p: Id)
    requires Spoiled(f, order, h, p) && order <= all
    ensures Spoiled(f, all, h, p)
  {
    var n: nat :| FirstLister(f, order, n, p) && Location(h, p) !in f.indexes[order[n]];
    assert all[..n] == order[..n];
    assert FirstLister(f, all, n, p);
  }

  lemma SpoiledIsLost(f: Snapshot, order: seq<Id>, h: Handle, p: Id)
    requires Spoiled(f, order, h, p)
    ensures !Kept(f, order, Location(h, p))
  {
    var n: nat :| FirstLister(f, order, n, p) && Location(h, p) !in f.indexes[order[n]];
    forall m: nat | n < m < |order|
      ensures !FirstLister(f, order, m, p)
    {
      ListedBefore(f, order, n, m, p);
    }
    if m: nat :| m < n && FirstLister(f, order, m, p) {
      ListedBefore(f, order, m, n, p);
      assert false;
    }
  }

  lemma ListedBefore(f: Snapshot, order: seq<Id>, m: nat, n: nat, p: Id)
    requires m < n < |order| && order[m] in f.indexes && p in PacksIn(f.indexes[order[m]])
    ensures !FirstLister(f, order, n, p)
  {
    assert order[m] in order[..n];
    var l :| l in f.indexes[order[m]] && l.pack == p;
    assert l.pack in PacksListed(f, Seen(order[..n]));
  }

  /** The packs through which the blob might be found. */
  ghost function PacksWith(f: Snapshot, exclude: set<Id>, h: Handle): set<Id> {
    set p | p in Mentioned(f) && p !in exclude && Holds(f, Location(h, p))
  }

  /** If no packs vouch for the blob, then some index file lists some of any packs left, but the
      blob in none of them.  Processing it next spoils these packs, until none is left. */
  lemma {:induction false} SpoilAll(f: Snapshot, exclude: set<Id>, h: Handle, order: seq<Id>, left: set<Id>)
    returns (all: seq<Id>)
    requires !FoundSurely(f, exclude, h) && left <= PacksWith(f, exclude, h)
    requires Ordered(order, Seen(order)) && Seen(order) <= f.indexes.Keys && left !! PacksListed(f, Seen(order))
    requires forall p :: p in PacksWith(f, exclude, h) - left ==> Spoiled(f, order, h, p)
    ensures Ordered(all, Seen(all)) && Seen(all) <= f.indexes.Keys
    ensures forall p :: p in PacksWith(f, exclude, h) ==> Spoiled(f, all, h, p)
    decreases |left|
  {
    hide PacksListed, Spoiled, Ordered, Seen;
    if left == {} {
      all := order;
    } else {
      var i := NotVouching(f, exclude, h, left);
      PacksListedSome(f, Seen(order), i);
      assert i !in Seen(order);
      OrderedSnoc(order, Seen(order), i);
      SeenSnoc(order, i);
      PacksListedAdd(f, Seen(order), i);
      forall p | p in PacksWith(f, exclude, h) - (left - PacksIn(f.indexes[i]))
        ensures Spoiled(f, order + [i], h, p)
      {
        if p in left {
          SpoiledByLast(f, order, i, h, p);
        } else {
          SpoiledForGood(f, order, order + [i], h, p);
        }
      }
      assert left - PacksIn(f.indexes[i]) < left;
      SmallerSet(left - PacksIn(f.indexes[i]), left);
      all := SpoilAll(f, exclude, h, order + [i], left - PacksIn(f.indexes[i]));
    }
  }

  lemma SmallerSet(a: set<Id>, b: set<Id>)
    requires a < b
    ensures |a| < |b|
  {
    assert b == a + (b - a);
  }

  lemma NotVouching(f: Snapshot, exclude: set<Id>, h: Handle, packs: set<Id>) returns (i: Id)
    requires !FoundSurely(f, exclude, h) && packs != {} && packs <= PacksWith(f, exclude, h)
    ensures i in f.indexes && PacksIn(f.indexes[i]) * packs != {} && !ListedIn(f.indexes[i], h, packs)
  {
    hide Mentioned, PacksIn, ListedIn;
    assert !Vouched(f, exclude, h, packs);
    i :| i in f.indexes && PacksIn(f.indexes[i]) * packs != {} && !ListedIn(f.indexes[i], h, packs);
  }

  lemma PacksListedSome(f: Snapshot, indexes: set<Id>, i: Id)
    requires i in f.indexes
    ensures i in indexes ==> PacksIn(f.indexes[i]) <= PacksListed(f, indexes)
  {
    if i in indexes {
      forall p | p in PacksIn(f.indexes[i])
        ensures p in PacksListed(f, indexes)
      {
        var l :| l in f.indexes[i] && l.pack == p;
      }
    }
  }

  lemma SpoiledByLast(f: Snapshot, order: seq<Id>, i: Id, h: Handle, p: Id)
    requires i in f.indexes && p in PacksIn(f.indexes[i]) && p !in PacksListed(f, Seen(order))
    requires Location(h, p) !in f.indexes[i]
    ensures Spoiled(f, order + [i], h, p)
  {
    assert (order + [i])[..|order|] == order;
    assert FirstLister(f, order + [i], |order|, p);
  }

  /** A blob outlasts the rewriting of the index in every order of the index files exactly if
      some packs that are not excluded vouch for it. */
  lemma FoundInEveryOrderIff(f: Snapshot, exclude: set<Id>, h: Handle)
    ensures FoundSurely(f, exclude, h) <==> forall order :: IsOrder(f, order) ==> FoundInOrder(f, order, exclude, h)
  {
    hide Vouched, FoundInOrder, IsOrder;
    if FoundSurely(f, exclude, h) {
      var packs :| Vouched(f, exclude, h, packs);
      forall order | IsOrder(f, order)
        ensures FoundInOrder(f, order, exclude, h)
      {
        VouchedIsFound(f, order, exclude, h, packs);
      }
    } else {
      var order := LosingOrder(f, exclude, h);
    }
  }

  lemma LosingOrder(f: Snapshot, exclude: set<Id>, h: Handle) returns (order: seq<Id>)
    requires !FoundSurely(f, exclude, h)
    ensures IsOrder(f, order) && !FoundInOrder(f, order, exclude, h)
  {
    hide Spoiled, IsOrder, FoundSurely;
    NothingListed(f);
    var spoiling := SpoilAll(f, exclude, h, [], PacksWith(f, exclude, h));
    order := Completed(f, spoiling);
    forall l: Location | l.h == h && l.pack !in exclude && Holds(f, l)
      ensures !Kept(f, order, l)
    {
      if l.pack in Mentioned(f) {
        SpoiledForGood(f, spoiling, order, h, l.pack);
        SpoiledIsLost(f, order, h, l.pack);
        assert l == Location(h, l.pack);
      }
    }
  }

  /** An entry that all index files agree on is kept in every order, and no other entry is. */
  lemma KeptInEveryOrderIff(f: Snapshot, l: Location)
    requires Lists(f, f.indexes.Keys, l)
    ensures Agreed(f, l) <==> forall order :: IsOrder(f, order) ==> Kept(f, order, l)
  {
    if Agreed(f, l) {
      forall order | IsOrder(f, order)
        ensures Kept(f, order, l)
      {
        AgreedIsKept(f, order, l);
      }
    } else {
      var i :| i in f.indexes && l.pack in PacksIn(f.indexes[i]) && l !in f.indexes[i];
      NothingListed(f);
      SpoiledByLast(f, [], i, l.h, l.pack);
      OrderedSnoc([], {}, i);
      var order := Completed(f, [i]);
      SpoiledForGood(f, [i], order, l.h, l.pack);
      SpoiledIsLost(f, order, l.h, l.pack);
      assert l == Location(l.h, l.pack);
    }
  }

  lemma AgreedIsKept(f: Snapshot, order: seq<Id>, l: Location)
    requires IsOrder(f, order) && Lists(f, f.indexes.Keys, l) && Agreed(f, l)
    ensures Kept(f, order, l)
  {
    assert forall id :: id in order ==> id in Seen(order);
    assert l.pack in {l.pack} * PacksListed(f, Seen(order));
    var n := FirstToList(f, order, {l.pack});
    assert FirstLister(f, order, n, l.pack);
  }

  /** Two packs hold both blobs, and each of two index files lists another blob of each. */
  function CrossListed(h: Handle, k: Handle): Snapshot {
    Snapshot(map[5 := {h, k}, 6 := {h, k}],
             map[1 := {Location(h, 5), Location(k, 6)}, 2 := {Location(h, 6), Location(k, 5)}])
  }

  /** A blob can outlast every order although no entry of it does. */
  lemma VouchedWithoutAgreement(h: Handle, k: Handle)
    requires h != k
    ensures FoundSurely(CrossListed(h, k), {}, h)
    ensures !Agreed(CrossListed(h, k), Location(h, 5)) && !Agreed(CrossListed(h, k), Location(h, 6))
  {
    var f := CrossListed(h, k);
    assert FoundSurely(f, {}, h) by {
      CrossVouched(h, k);
    }
    hide FoundSurely, Agreed;
    NotAgreed(f, 2, Location(k, 5), Location(h, 5));
    NotAgreed(f, 1, Location(k, 6), Location(h, 6));
  }

  lemma NotAgreed(f: Snapshot, i: Id, m: Location, l: Location)
    requires i in f.indexes && m in f.indexes[i] && m.pack == l.pack && l !in f.indexes[i]
    ensures !Agreed(f, l)
  {
    assert m.pack in PacksIn(f.indexes[i]);
  }

  lemma CrossVouched(h: Handle, k: Handle)
    ensures Vouched(CrossListed(h, k), {}, h, {5, 6})
  {
    var f := CrossListed(h, k);
    assert Location(h, 5) in f.indexes[1] && Location(h, 6) in f.indexes[2];
    assert ListedIn(f.indexes[1], h, {5, 6}) && ListedIn(f.indexes[2], h, {5, 6});
    assert 5 in Mentioned(f) && 6 in Mentioned(f);
    hide Mentioned, ListedIn, PacksIn;
  }

  /** The index files that stay, with those not processed yet left out. */
  ghost function Stable(f: Snapshot, f1: Snapshot, order: seq<Id>, obsolete: set<Id>): set<Id> {
    f.indexes.Keys - obsolete - (f1.indexes.Keys - Seen(order))
  }

  /** The state after processing the index files of `f1` in some order: what stays and what is
      collected for the next new file are exactly the kept entries of the other packs. */
  ghost predicate Rewriting(f: Snapshot, f1: Snapshot, order: seq<Id>, obsolete: set<Id>, exclude0: set<Id>,
                            exclude: set<Id>, newIndex: set<Location>) {
    && Seen(order) <= f1.indexes.Keys && obsolete <= Seen(order)
    && f.packs == f1.packs && Extends(f, f1, {})
    && exclude == exclude0 + PacksListed(f1, Seen(order))
    && forall l :: Lists(f, Stable(f, f1, order, obsolete), l) || l in newIndex <==>
                   l.pack !in exclude0 && Kept(f1, order, l)
  }

  lemma StartRewriting(f1: Snapshot, exclude0: set<Id>)
    ensures Rewriting(f1, f1, [], {}, exclude0, exclude0, {})
  {
    NoneListed(f1, Seen([]));
  }

  /** An index file that is up to date is kept as it is. */
  lemma KeepIndex(f: Snapshot, f1: Snapshot, order: seq<Id>, obsolete: set<Id>, exclude0: set<Id>,
                  exclude: set<Id>, newIndex: set<Location>, id: Id)
    requires Rewriting(f, f1, order, obsolete, exclude0, exclude, newIndex)
    requires id in f1.indexes.Keys - Seen(order) && PacksIn(f1.indexes[id]) !! exclude
    ensures Rewriting(f, f1, order + [id], obsolete, exclude0, exclude + PacksIn(f1.indexes[id]), newIndex)
  {
    hide Kept, PacksListed, Seen;
    SeenSnoc(order, id);
    PacksListedAdd(f1, Seen(order), id);
    var stable, stable' := Stable(f, f1, order, obsolete), Stable(f, f1, order + [id], obsolete);
    assert stable' == stable + {id};
    forall l: Location
      ensures Lists(f, stable', l) || l in newIndex <==> l.pack !in exclude0 && Kept(f1, order + [id], l)
    {
      KeptSnoc(f1, order, id, l);
      assert Lists(f, stable', l) <==> Lists(f, stable, l) || l in f1.indexes[id];
      assert l in f1.indexes[id] ==> l.pack in PacksIn(f1.indexes[id]);
    }
  }

  /** Any other index file is copied, as far as its packs were not seen yet, and obsolete. */
  lemma CopyIndex(f: Snapshot, f1: Snapshot, order: seq<Id>, obsolete: set<Id>, exclude0: set<Id>,
                  exclude: set<Id>, newIndex: set<Location>, id: Id)
    requires Rewriting(f, f1, order, obsolete, exclude0, exclude, newIndex)
    requires id in f1.indexes.Keys - Seen(order)
    ensures Rewriting(f, f1, order + [id], obsolete + {id}, exclude0, exclude + PacksIn(f1.indexes[id]),
                      newIndex + Without(f1.indexes[id], exclude))
  {
    hide Kept, PacksListed, Seen, Lists;
    SeenSnoc(order, id);
    PacksListedAdd(f1, Seen(order), id);
    assert Stable(f, f1, order + [id], obsolete + {id}) == Stable(f, f1, order, obsolete);
    forall l: Location
      ensures Lists(f, Stable(f, f1, order + [id], obsolete + {id}), l) ||
        l in newIndex + Without(f1.indexes[id], exclude)
        <==> l.pack !in exclude0 && Kept(f1, order + [id], l)
    {
      KeptSnoc(f1, order, id, l);
    }
  }

  /** Saving what was collected so far. */
  lemma FlushIndex(f: Snapshot, f1: Snapshot, order: seq<Id>, obsolete: set<Id>, exclude0: set<Id>,
                   exclude: set<Id>, newIndex: set<Location>, id: Id)
    requires Rewriting(f, f1, order, obsolete, exclude0, exclude, newIndex) && id !in f.indexes
    ensures Rewriting(f.(indexes := f.indexes[id := newIndex]), f1, order, obsolete, exclude0, exclude, {})
  {
    hide Kept, PacksListed, Seen;
    var g := f.(indexes := f.indexes[id := newIndex]);
    var stable, stable' := Stable(f, f1, order, obsolete), Stable(g, f1, order, obsolete);
    assert stable' == stable + {id};
    forall l: Location
      ensures Lists(g, stable', l) <==> Lists(f, stable, l) || l in newIndex
    {
      if Lists(f, stable, l) {
        var i :| i in stable && i in f.indexes && l in f.indexes[i];
        assert i in stable' && l in g.indexes[i];
      }
      if l in newIndex {
        assert id in stable' && l in g.indexes[id];
      }
    }
  }

  lemma RewritingSafe(f: Snapshot, f1: Snapshot, order: seq<Id>, obsolete: set<Id>, exclude0: set<Id>,
                      exclude: set<Id>, newIndex: set<Location>, used: set<Handle>)
    requires Rewriting(f, f1, order, obsolete, exclude0, exclude, newIndex)
    requires Secured(f1, f1.indexes.Keys, exclude0, used)
    ensures Safe(f, used) && Secured(f, f.indexes.Keys, exclude0, used) && f.packs == f1.packs
  {
    ExtendsKeepsFound(f, f1, {}, exclude0, used);
    SecuredIsSafe(f, f.indexes.Keys, exclude0, used);
  }

  /** The index files say exactly what is kept of the other packs. */
  ghost predicate Rewritten(f: Snapshot, indexes: set<Id>, f1: Snapshot, order: seq<Id>, exclude0: set<Id>) {
    && IsOrder(f1, order)
    && forall l :: Lists(f, indexes, l) <==> l.pack !in exclude0 && Kept(f1, order, l)
  }

  /** Blobs that some packs vouch for are still found, and the excluded packs are not mentioned
      any more. */
  lemma RewrittenSecured(f: Snapshot, indexes: set<Id>, f1: Snapshot, order: seq<Id>, exclude0: set<Id>,
                         used: set<Handle>)
    requires Rewritten(f, indexes, f1, order, exclude0) && f.packs == f1.packs
    requires Sure(f1, exclude0, used)
    ensures Secured(f, indexes, exclude0, used) && Clean(f, indexes, exclude0)
  {
    hide Vouched, Kept, IsOrder;
    forall h | h in used
      ensures Found(f, indexes, exclude0, h)
    {
      var packs :| Vouched(f1, exclude0, h, packs);
      VouchedIsFound(f1, order, exclude0, h, packs);
      var l :| Kept(f1, order, l) && l.h == h && l.pack !in exclude0 && Holds(f1, l);
      assert Lists(f, indexes, l);
      var j :| j in indexes && j in f.indexes && l in f.indexes[j];
      assert Holds(f, l);
    }
    forall i, l | i in indexes && i in f.indexes && l in f.indexes[i]
      ensures l.pack !in exclude0
    {
      assert Lists(f, indexes, l);
    }
  }

  /** What the order decides: a blob is found in the end exactly if it is found in that order. */
  lemma FoundOnlyIfKept(f: Snapshot, indexes: set<Id>, f1: Snapshot, order: seq<Id>, exclude0: set<Id>, h: Handle)
    requires Rewritten(f, indexes, f1, order, exclude0) && f.packs == f1.packs
    ensures Found(f, indexes, {}, h) <==>
      FoundInOrder(f1, order, exclude0, h)
  {
    hide Kept;
    if Found(f, indexes, {}, h) {
      var i, l :| i in indexes && i in f.indexes && l in f.indexes[i] && l.h == h && Holds(f, l);
      assert Lists(f, indexes, l) && Holds(f1, l);
    }
    if l :| Kept(f1, order, l) && l.h == h && l.pack !in exclude0 && Holds(f1, l) {
      assert Lists(f, indexes, l) && Holds(f, l);
      var i :| i in indexes && i in f.indexes && l in f.indexes[i];
      assert Found(f, indexes, {}, h);
    }
  }

  /** Two index files that disagree on pack 5: only the first one lists `h`. */
  function Disagreeing(h: Handle, k: Handle): Snapshot {
    Snapshot(map[5 := {h, k}], map[1 := {Location(h, 5), Location(k, 5)}, 2 := {Location(k, 5)}])
  }

  /** The same repository with one index file, which does not list `h`. */
  function WithoutEntry(h: Handle, k: Handle): Snapshot {
    Snapshot(map[5 := {h, k}], map[3 := {Location(k, 5)}])
  }

  /** Where index files disagree a blob can get lost: it is found before the index is rewritten,
      and not afterwards if the file that does not list it is processed first. */
  lemma DisagreementLosesBlob(h: Handle, k: Handle, exclude0: set<Id>)
    requires h != k && 5 !in exclude0
    ensures var f, g := Disagreeing(h, k), WithoutEntry(h, k);
      && Resolves(f, h) && !Resolves(g, h)
      && g.packs == f.packs && Rewritten(g, g.indexes.Keys, f, [2, 1], exclude0)
  {
    var f, g := Disagreeing(h, k), WithoutEntry(h, k);
    assert Location(h, 5) in f.indexes[1] && Holds(f, Location(h, 5));
    KeptOfDisagreeing(h, k);
    forall l: Location
      ensures Lists(g, g.indexes.Keys, l) <==> l.pack !in exclude0 && Kept(f, [2, 1], l)
    {
      if l == Location(k, 5) {
        assert 3 in g.indexes.Keys && l in g.indexes[3];
      }
    }
    assert IsOrder(f, [2, 1]);
  }

  lemma KeptOfDisagreeing(h: Handle, k: Handle)
    requires h != k
    ensures forall l: Location :: Kept(Disagreeing(h, k), [2, 1], l) <==> l == Location(k, 5)
  {
    hide Seen, PacksListed;
    var f := Disagreeing(h, k);
    forall l: Location
      ensures Kept(f, [2, 1], l) <==> l == Location(k, 5)
    {
      assert [] + [2] == [2] && [2] + [1] == [2, 1];
      NothingListed(f);
      KeptSnoc(f, [], 2, l);
      KeptSnoc(f, [2], 1, l);
      SeenSnoc([], 2);
      PacksListedAdd(f, Seen([]), 2);
      assert !Kept(f, [], l);
      assert l in f.indexes[1] ==> l.pack == 5;
      assert Location(k, 5) in f.indexes[2] && 5 in PacksIn(f.indexes[2]);
    }
  }

  /** MasterIndex.Rewrite: all new index files are saved before an old one is deleted.  In the
      end the index says exactly what the first index file that lists a pack said about it. */
  method RewriteIndex(disk: Disk, exclude0: set<Id>, ghost used: set<Handle>) returns (ok: bool, ghost order: seq<Id>)
    requires Sure(disk.files, exclude0, used)
    modifies disk
    ensures disk.files.packs == old(disk.files).packs
    ensures old(disk.history) <= disk.history && SafeSince(disk.history, |old(disk.history)|, used)
    ensures Secured(disk.files, disk.files.indexes.Keys, exclude0, used)
    ensures ok ==> Rewritten(disk.files, disk.files.indexes.Keys, old(disk.files), order, exclude0)
    ensures ok ==> Clean(disk.files, disk.files.indexes.Keys, exclude0)
  {
    hide Sure, Secured, Safe, Found, Clean, Rewritten;
    ghost var f1 := disk.files;
    SureIsSecured(f1, exclude0, used);
    var obsolete, saved;
    obsolete, saved, order := SaveRewritten(disk, exclude0, used);
    if !saved {
      return false, order;
    }
    var todo := obsolete;
    while todo != {}
      invariant todo <= obsolete
      invariant disk.files.packs == f1.packs
      invariant old(disk.history) <= disk.history && SafeSince(disk.history, |old(disk.history)|, used)
      invariant Rewritten(disk.files, disk.files.indexes.Keys - todo, f1, order, exclude0)
    {
      var id :| id in todo;
      StillRewritten(disk.files, todo, {id}, f1, order, exclude0, used);
      if * {
        return false, order;
      }
      disk.RemoveIndex(id);
      todo := todo - {id};
    }
    StillRewritten(disk.files, todo, {}, f1, order, exclude0, used);
    assert disk.files.indexes.Keys - todo == disk.files.indexes.Keys;
    RewrittenSecured(disk.files, disk.files.indexes.Keys, f1, order, exclude0, used);
    return true, order;
  }

  /** Deleting obsolete index files changes nothing of what the others say. */
  lemma StillRewritten(f: Snapshot, todo: set<Id>, removed: set<Id>, f1: Snapshot, order: seq<Id>, exclude0: set<Id>,
                       used: set<Handle>)
    requires Rewritten(f, f.indexes.Keys - todo, f1, order, exclude0) && f.packs == f1.packs
    requires removed <= todo && Sure(f1, exclude0, used)
    ensures Secured(f, f.indexes.Keys, exclude0, used)
    ensures var g := f.(indexes := f.indexes - removed);
      Rewritten(g, g.indexes.Keys - (todo - removed), f1, order, exclude0) && Safe(g, used)
  {
    hide Sure, Kept, IsOrder;
    var g := f.(indexes := f.indexes - removed);
    var kept := g.indexes.Keys - (todo - removed);
    assert kept == f.indexes.Keys - todo;
    forall l: Location
      ensures Lists(g, kept, l) <==> Lists(f, kept, l)
    {
      assert forall i :: i in kept ==> i in g.indexes && i in f.indexes && g.indexes[i] == f.indexes[i];
    }
    RewrittenSecured(g, kept, f1, order, exclude0, used);
    SecuredIsSafe(g, kept, exclude0, used);
    RewrittenSecured(f, kept, f1, order, exclude0, used);
    MoreSecured(f, kept, exclude0, used);
  }

  lemma MoreSecured(f: Snapshot, indexes: set<Id>, doomed: set<Id>, used: set<Handle>)
    requires Secured(f, indexes, doomed, used)
    ensures Secured(f, f.indexes.Keys, doomed, used)
  {
    forall h | h in used
      ensures Found(f, f.indexes.Keys, doomed, h)
    {
      var i, l :| i in indexes && i in f.indexes && l in f.indexes[i] && l.h == h && l.pack !in doomed && Holds(f, l);
      assert i in f.indexes.Keys;
    }
  }

  method SaveRewritten(disk: Disk, exclude0: set<Id>, ghost used: set<Handle>)
    returns (obsolete: set<Id>, ok: bool, ghost order: seq<Id>)
    requires Secured(disk.files, disk.files.indexes.Keys, exclude0, used)
    modifies disk
    ensures disk.files.packs == old(disk.files).packs
    ensures old(disk.history) <= disk.history && SafeSince(disk.history, |old(disk.history)|, used)
    ensures Secured(disk.files, disk.files.indexes.Keys, exclude0, used)
    ensures ok ==> Rewritten(disk.files, disk.files.indexes.Keys - obsolete, old(disk.files), order, exclude0)
  {
    hide Rewriting, Secured, Safe, Found, Rewritten, PacksIn;
    ghost var f1 := disk.files;
    var indexes := disk.files.indexes;
    var todo := indexes.Keys;
    var exclude, newIndex: set<Location> := exclude0, {};
    obsolete, order := {}, [];
    StartRewriting(f1, exclude0);
    while todo != {}
      invariant todo <= indexes.Keys && Ordered(order, f1.indexes.Keys - todo)
      invariant Rewriting(disk.files, f1, order, obsolete, exclude0, exclude, newIndex)
      invariant old(disk.history) <= disk.history && SafeSince(disk.history, |old(disk.history)|, used)
    {
      var id :| id in todo;
      OrderedSnoc(order, f1.indexes.Keys - todo, id);
      assert f1.indexes.Keys - (todo - {id}) == f1.indexes.Keys - todo + {id};
      var full := *;
      if full && PacksIn(indexes[id]) !! exclude {
        KeepIndex(disk.files, f1, order, obsolete, exclude0, exclude, newIndex, id);
      } else {
        CopyIndex(disk.files, f1, order, obsolete, exclude0, exclude, newIndex, id);
        obsolete := obsolete + {id};
        newIndex := newIndex + Without(indexes[id], exclude);
      }
      exclude := exclude + PacksIn(indexes[id]);
      todo := todo - {id};
      order := order + [id];
      if * {
        newIndex := FlushNewIndex(disk, f1, order, obsolete, exclude0, exclude, newIndex, used);
      }
      if * {
        RewritingSafe(disk.files, f1, order, obsolete, exclude0, exclude, newIndex, used);
        return obsolete, false, order;
      }
    }
    newIndex := FlushNewIndex(disk, f1, order, obsolete, exclude0, exclude, newIndex, used);
    RewritingSafe(disk.files, f1, order, obsolete, exclude0, exclude, newIndex, used);
    assert f1.indexes.Keys - todo == f1.indexes.Keys;
    AllRewritten(disk.files, f1, order, obsolete, exclude0, exclude);
    return obsolete, true, order;
  }

  lemma AllRewritten(f: Snapshot, f1: Snapshot, order: seq<Id>, obsolete: set<Id>, exclude0: set<Id>, exclude: set<Id>)
    requires Rewriting(f, f1, order, obsolete, exclude0, exclude, {}) && Ordered(order, f1.indexes.Keys)
    ensures Rewritten(f, f.indexes.Keys - obsolete, f1, order, exclude0)
  {
    hide Kept, Lists;
    assert Stable(f, f1, order, obsolete) == f.indexes.Keys - obsolete;
  }

  method FlushNewIndex(disk: Disk, ghost f1: Snapshot, ghost order: seq<Id>, ghost obsolete: set<Id>,
                       ghost exclude0: set<Id>, ghost exclude: set<Id>, newIndex: set<Location>,
                       ghost used: set<Handle>)
    returns (empty: set<Location>)
    requires Rewriting(disk.files, f1, order, obsolete, exclude0, exclude, newIndex)
    requires Secured(f1, f1.indexes.Keys, exclude0, used)
    modifies disk
    ensures empty == {}
    ensures Rewriting(disk.files, f1, order, obsolete, exclude0, exclude, {})
    ensures disk.history == old(disk.history) + [disk.files] && Safe(disk.files, used)
  {
    hide Rewriting, Secured, Safe;
    var id := FreshId(disk.files.indexes.Keys);
    FlushIndex(disk.files, f1, order, obsolete, exclude0, exclude, newIndex, id);
    disk.SaveIndex(id, newIndex);
    RewritingSafe(disk.files, f1, order, obsolete, exclude0, exclude, {}, used);
    empty := {};
  }
}
