/** A cache of blobs that is bounded by their size in memory (bloblru.Cache). */
module BlobCache {
  import opened Repository

  /** A byte slice: only its capacity matters here. */
  datatype Buffer = Buffer(data: seq<bv8>, capacity: nat)

  datatype Item = Item(id: Id, blob: Buffer)

  const OVERHEAD: nat := 32 + 64

  function Cost(blob: Buffer): nat {
    blob.capacity + OVERHEAD
  }

  function TotalCost(items: seq<Item>): nat {
    if items == [] then 0 else TotalCost(items[..|items| - 1]) + Cost(items[|items| - 1].blob)
  }

  function Capacities(items: seq<Item>): nat {
    if items == [] then 0 else Capacities(items[..|items| - 1]) + items[|items| - 1].blob.capacity
  }

  lemma {:induction false} CostsAreCapacities(items: seq<Item>)
    ensures TotalCost(items) == Capacities(items) + 96 * |items|
  {
    if items != [] {
      CostsAreCapacities(items[..|items| - 1]);
    }
  }

  ghost predicate DistinctIds(items: seq<Item>) {
    forall i, j :: 0 <= i < j < |items| ==> items[i].id != items[j].id
  }

  predicate Has(items: seq<Item>, id: Id) {
    exists i :: 0 <= i < |items| && items[i].id == id
  }

  /** How many of the oldest items have to go until `need` bytes are free. */
  function Evictions(items: seq<Item>, free: int, need: int): (k: nat)
    ensures k <= |items|
  {
    if need <= free || items == [] then 0 else 1 + Evictions(items[1..], free + Cost(items[0].blob), need)
  }

  /** The largest of some buffers, the first one of them; a buffer without capacity does not
      count. */
  function Largest(items: seq<Item>): Option<Buffer> {
    if items == [] then None
    else Larger(Largest(items[..|items| - 1]), items[|items| - 1].blob)
  }

  function Larger(a: Option<Buffer>, b: Buffer): Option<Buffer> {
    if b.capacity > (if a.Some? then a.value.capacity else 0) then Some(b) else a
  }

  // ----- Costs -----

  lemma {:induction false} CostAppend(a: seq<Item>, b: seq<Item>)
    ensures TotalCost(a + b) == TotalCost(a) + TotalCost(b)
  {
    if b == [] {
      assert a + b == a;
    } else {
      CostAppend(a, b[..|b| - 1]);
      assert (a + b)[..|a + b| - 1] == a + b[..|b| - 1];
    }
  }

  lemma CostFirst(items: seq<Item>)
    requires items != []
    ensures TotalCost(items) == Cost(items[0].blob) + TotalCost(items[1..])
  {
    CostAppend([items[0]], items[1..]);
    assert items == [items[0]] + items[1..];
    assert [items[0]][..0] == [];
  }

  lemma {:induction false} CostAtLeast(items: seq<Item>)
    ensures TotalCost(items) >= OVERHEAD * |items|
  {
    if items != [] {
      CostAtLeast(items[..|items| - 1]);
    }
  }

  /** The eviction stops as soon as there is room, and there is room then if the items were
      all that is in the way. */
  lemma {:induction false} EvictionsSuffice(items: seq<Item>, free: int, need: int)
    requires need <= free + TotalCost(items)
    ensures var k := Evictions(items, free, need);
      && need <= free + TotalCost(items[..k])
      && (k > 0 ==> free + TotalCost(items[..k - 1]) < need)
  {
    if need <= free || items == [] {
    } else {
      var k := Evictions(items, free, need);
      CostFirst(items);
      EvictionsSuffice(items[1..], free + Cost(items[0].blob), need);
      assert items[1..][..k - 1] == items[..k][1..];
      CostFirst(items[..k]);
      if k > 1 {
        assert items[1..][..k - 2] == items[..k - 1][1..];
        CostFirst(items[..k - 1]);
      }
    }
  }

  /** The buffer returned for reuse is at least as large as all others that were evicted. */
  lemma {:induction false} LargestIsLargest(items: seq<Item>)
    ensures Largest(items).Some? ==> exists i :: 0 <= i < |items| && items[i].blob == Largest(items).value
    ensures forall i :: 0 <= i < |items| ==>
      items[i].blob.capacity <= if Largest(items).Some? then Largest(items).value.capacity else 0
  {
    if items != [] {
      var n := |items| - 1;
      LargestIsLargest(items[..n]);
      if Largest(items) == Largest(items[..n]) && Largest(items).Some? {
        var i :| 0 <= i < |items[..n]| && items[..n][i].blob == Largest(items[..n]).value;
        assert items[i].blob == Largest(items).value;
      }
      forall i | 0 <= i < |items|
        ensures items[i].blob.capacity <= if Largest(items).Some? then Largest(items).value.capacity else 0
      {
        if i < n {
          assert items[i] == items[..n][i];
        }
      }
    }
  }

  lemma EvictionsSteps(items: seq<Item>, free: int, need: int)
    ensures need <= free ==> Evictions(items, free, need) == 0
    ensures need > free && items != [] ==>
      Evictions(items, free, need) == 1 + Evictions(items[1..], free + Cost(items[0].blob), need)
  {
  }

  lemma LargestSnoc(items: seq<Item>)
    ensures Largest([]) == None
    ensures forall i :: 0 <= i < |items| ==> Largest(items[..i + 1]) == Larger(Largest(items[..i]), items[i].blob)
  {
    assert forall i :: 0 <= i < |items| ==> items[..i + 1][..i] == items[..i];
  }

  lemma OneFewerItem(items: seq<Item>)
    ensures TotalCost([]) == 0
    ensures items != [] && DistinctIds(items) ==> DistinctIds(items[1..])
  {
  }

  // ----- Using an item -----

  /** One item becomes the most recently used one, and the others keep their order. */
  function MovedToEnd(items: seq<Item>, i: nat): seq<Item>
    requires i < |items|
  {
    items[..i] + items[i + 1..] + [items[i]]
  }

  /** Afterwards this item is the most recently used one. */
  ghost predicate MostRecent(before: seq<Item>, after: seq<Item>, item: Item) {
    exists i :: 0 <= i < |before| && before[i] == item && after == MovedToEnd(before, i)
  }

  lemma MovedDistinct(items: seq<Item>, i: nat)
    requires i < |items| && DistinctIds(items)
    ensures DistinctIds(MovedToEnd(items, i))
  {
  }

  lemma Moved(items: seq<Item>, i: nat)
    requires i < |items| && DistinctIds(items)
    ensures var r := MovedToEnd(items, i);
      TotalCost(r) == TotalCost(items) && multiset(r) == multiset(items) && DistinctIds(r)
  {
    hide TotalCost, DistinctIds;
    var a, b, c := items[..i], [items[i]], items[i + 1..];
    assert items == a + b + c;
    CostAppend(a, b);
    CostAppend(a + b, c);
    CostAppend(a, c);
    CostAppend(a + c, b);
    MovedDistinct(items, i);
  }

  // ----- The cache -----

  class Cache {
    var items: seq<Item>         // the least recently used one first
    const maxEntries: nat        // the limit of the list itself
    const size: int
    var free: int

    /** There must be room for an entry at least. */
    constructor (size: int)
      requires size >= OVERHEAD
      ensures Valid() && this.size == size && items == []
    {
      this.items, this.size, this.free := [], size, size;
      this.maxEntries := size / OVERHEAD;
    }

    /** The budget: what is free and what the items cost is all there is. */
    ghost predicate Valid()
      reads this
    {
      && free + TotalCost(items) == size && free >= 0
      && size >= OVERHEAD && maxEntries == size / OVERHEAD
      && DistinctIds(items)
    }

    /** What is free, and 96 bytes and the capacity of its buffer for each item, are the budget. */
    lemma Budget()
      requires Valid()
      ensures free >= 0 && free + Capacities(items) + 96 * |items| == size
    {
      CostsAreCapacities(items);
    }

    /** So the list never holds as many entries as it may. */
    lemma EntryLimit()
      requires Valid()
      ensures |items| <= maxEntries
    {
      CostAtLeast(items);
    }

    method Evict(blob: Buffer)
      modifies this`free
      ensures free == old(free) + Cost(blob)
    {
      free := free + (blob.capacity + OVERHEAD);
    }

    method RemoveOldest() returns (b: Option<Buffer>)
      modifies this
      ensures old(items) == [] ==> b.None? && items == [] && free == old(free)
      ensures old(items) != [] ==>
        b == Some(old(items)[0].blob) && items == old(items)[1..] && free == old(free) + Cost(old(items)[0].blob)
    {
      if items == [] {
        return None;
      }
      var oldest := items[0];
      items := items[1..];
      Evict(oldest.blob);
      return Some(oldest.blob);
    }

    /** Adds to the list, which evicts on its own when it holds more than it may. */
    method Append(item: Item)
      requires !Has(items, item.id)
      modifies this
      ensures |old(items)| < maxEntries ==> items == old(items) + [item] && free == old(free)
    {
      items := items + [item];
      if |items| > maxEntries {
        var b := RemoveOldest();
      }
    }

    /** Adds a blob, unless it is too large or there already.  The oldest items go, and no
        more of them than necessary; the largest of their buffers is returned. */
    method Add(id: Id, blob: Buffer) returns (reuse: Option<Buffer>)
      requires Valid()
      modifies this
      ensures Valid()
      ensures Cost(blob) > size || Has(old(items), id) ==> items == old(items) && free == old(free) && reuse.None?
      ensures Cost(blob) <= size && !Has(old(items), id) ==>
        var k := Evictions(old(items), old(free), Cost(blob));
        && items == old(items)[k..] + [Item(id, blob)]
        && reuse == Largest(old(items)[..k])
    {
      reuse := None;
      var need := blob.capacity + OVERHEAD;
      if need > size {
        return;
      }
      var contained := exists i :: 0 <= i < |items| && items[i].id == id;
      if contained {
        return;
      }
      reuse := MakeRoom(need);
      assert !Has(items, id);
      CostAppend(items, [Item(id, blob)]);
      assert [Item(id, blob)][..0] == [];
      CostAtLeast(items + [Item(id, blob)]);
      Append(Item(id, blob));
      free := free - need;
    }

    method MakeRoom(need: int) returns (reuse: Option<Buffer>)
      requires Valid() && need <= size
      modifies this
      ensures Valid() && need <= free
      ensures var k := Evictions(old(items), old(free), need);
        items == old(items)[k..] && reuse == Largest(old(items)[..k])
    {
      hide Evictions, Largest, TotalCost, DistinctIds;
      reuse := None;
      ghost var before, i := items, 0;
      EvictionsSteps(items, free, need);
      LargestSnoc(items);
      while need > free
        invariant 0 <= i <= |before| && Valid() && items == before[i..]
        invariant Evictions(before, old(free), need) == i + Evictions(items, free, need)
        invariant reuse == Largest(before[..i])
        decreases |items|
      {
        EvictionsSteps(items, free, need);
        LargestSnoc(before);
        OneFewerItem(items);
        CostFirst(items);
        var b := RemoveOldest();
        if b.value.capacity > (if reuse.Some? then reuse.value.capacity else 0) {
          reuse := b;
        }
        i := i + 1;
      }
      EvictionsSteps(items, free, need);
    }

    /** Looks a blob up and makes it the most recently used one. */
    method Get(id: Id) returns (blob: Option<Buffer>)
      requires Valid()
      modifies this
      ensures Valid() && free == old(free) && multiset(items) == multiset(old(items))
      ensures blob.None? <==> !Has(old(items), id)
      ensures blob.None? ==> items == old(items)
      ensures blob.Some? ==> MostRecent(old(items), items, Item(id, blob.value))
    {
      for i := 0 to |items|
        invariant items == old(items) && free == old(free)
        invariant forall j :: 0 <= j < i ==> items[j].id != id
      {
        if items[i].id == id {
          var item := items[i];
          Moved(items, i);
          ghost var before := items;
          items := items[..i] + items[i + 1..] + [item];
          assert items == MovedToEnd(before, i);
          return Some(item.blob);
        }
      }
      return None;
    }
  }
}
