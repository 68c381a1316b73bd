/** Reading a file of a mounted snapshot: finding the first blob by binary search over the
    cumulative sizes, and copying blobs until the request is served (file.Open, openFile.Read). */
module FuseRead {
  import opened Repository

  type Bytes = seq<bv8>

  /** The sizes of blobs as the index knows them, their content, and those that do not load. */
  datatype Loader = Loader(sizes: map<Id, nat>, blobs: map<Id, Bytes>, broken: set<Id>)

  /** All blobs of a file are known, and they have the sizes that the index says. */
  ghost predicate Known(content: seq<Id>, l: Loader) {
    forall id :: id in content ==> id in l.sizes && id in l.blobs && |l.blobs[id]| == l.sizes[id]
  }

  function SizeUpTo(content: seq<Id>, sizes: map<Id, nat>, i: nat): nat
    requires i <= |content| && forall id :: id in content ==> id in sizes
  {
    if i == 0 then 0 else SizeUpTo(content, sizes, i - 1) + sizes[content[i - 1]]
  }

  /** The content of a file from its blob `i` on. */
  function ContentFrom(content: seq<Id>, blobs: map<Id, Bytes>, i: nat): Bytes
    requires i <= |content| && forall id :: id in content ==> id in blobs
    decreases |content| - i
  {
    if i == |content| then [] else blobs[content[i]] + ContentFrom(content, blobs, i + 1)
  }

  /** A slice that may reach past the end, or begin there. */
  function Slice(s: Bytes, offset: nat, size: nat): Bytes {
    if offset >= |s| then [] else if offset + size <= |s| then s[offset..offset + size] else s[offset..]
  }

  lemma {:induction false} SizesGrow(content: seq<Id>, sizes: map<Id, nat>, i: nat, j: nat)
    requires i <= j <= |content| && forall id :: id in content ==> id in sizes
    ensures SizeUpTo(content, sizes, i) <= SizeUpTo(content, sizes, j)
    decreases j
  {
    if i < j {
      SizesGrow(content, sizes, i, j - 1);
    }
  }

  /** A blob is where the sizes before it say. */
  lemma {:induction false} ContentSplit(content: seq<Id>, l: Loader, i: nat)
    requires i <= |content| && Known(content, l)
    ensures SizeUpTo(content, l.sizes, i) + |ContentFrom(content, l.blobs, i)| == |ContentFrom(content, l.blobs, 0)|
    ensures ContentFrom(content, l.blobs, 0)[SizeUpTo(content, l.sizes, i)..] == ContentFrom(content, l.blobs, i)
  {
    if i > 0 {
      ContentSplit(content, l, i - 1);
      var all, n := ContentFrom(content, l.blobs, 0), SizeUpTo(content, l.sizes, i - 1);
      assert all[n..] == l.blobs[content[i - 1]] + ContentFrom(content, l.blobs, i);
      assert all[n + l.sizes[content[i - 1]]..] == all[n..][l.sizes[content[i - 1]]..];
    }
  }

  lemma WholeSize(content: seq<Id>, l: Loader)
    requires Known(content, l)
    ensures |ContentFrom(content, l.blobs, 0)| == SizeUpTo(content, l.sizes, |content|)
  {
    ContentSplit(content, l, |content|);
  }

  /** Some of the bytes of blob `i`, from `rest` on. */
  lemma PartOfBlob(content: seq<Id>, l: Loader, i: nat, rest: nat, n: nat)
    requires i < |content| && Known(content, l) && rest + n <= l.sizes[content[i]]
    ensures var begin := SizeUpTo(content, l.sizes, i) + rest;
      && begin + n <= |ContentFrom(content, l.blobs, 0)|
      && ContentFrom(content, l.blobs, 0)[begin..begin + n] == l.blobs[content[i]][rest..rest + n]
  {
    ContentSplit(content, l, i);
    var all, at := ContentFrom(content, l.blobs, 0), SizeUpTo(content, l.sizes, i);
    var tail := all[at..];
    assert tail == l.blobs[content[i]] + ContentFrom(content, l.blobs, i + 1);
    assert all[at + rest..at + rest + n] == tail[rest..rest + n];
  }

  /** A request touches a blob: it ends after the offset and begins before the request ends. */
  ghost predicate Touches(content: seq<Id>, sizes: map<Id, nat>, offset: nat, size: nat, k: nat)
    requires k < |content| && forall id :: id in content ==> id in sizes
  {
    size > 0 && SizeUpTo(content, sizes, k + 1) > offset && SizeUpTo(content, sizes, k) < offset + size
  }

  ghost predicate Readable(content: seq<Id>, l: Loader, offset: nat, size: nat)
    requires Known(content, l)
  {
    forall k: nat :: k < |content| && Touches(content, l.sizes, offset, size, k) ==> content[k] !in l.broken
  }

  ghost predicate Cumulative(cumsize: seq<nat>, content: seq<Id>, sizes: map<Id, nat>) {
    && |cumsize| == |content| + 1
    && (forall id :: id in content ==> id in sizes)
    && forall i :: 0 <= i < |cumsize| ==> cumsize[i] == SizeUpTo(content, sizes, i)
  }

  /** Opens a file: adds up the sizes of its blobs.  The size in the node is replaced if it is
      a different one. */
  method Open(content: seq<Id>, nodeSize: nat, sizes: map<Id, nat>) returns (f: Option<OpenFile>)
    ensures f.None? <==> exists id :: id in content && id !in sizes
    ensures f.Some? ==> f.value.content == content && f.value.Valid(sizes)
  {
    hide SizeUpTo;
    var bytes := 0;
    var cumsize := new nat[1 + |content|](_ => 0);
    assert SizeUpTo([], sizes, 0) == 0 by { NoSizes(sizes); }
    assert content[..0] == [];
    for i := 0 to |content|
      invariant forall id :: id in content[..i] ==> id in sizes
      invariant forall k :: 0 <= k <= i ==> cumsize[k] == SizeUpTo(content[..i], sizes, k)
      invariant bytes == cumsize[i]
    {
      if content[i] !in sizes {
        return None;
      }
      assert content[..i + 1] == content[..i] + [content[i]];
      OneMoreSize(content[..i], sizes, content[i]);
      bytes := bytes + sizes[content[i]];
      cumsize[i + 1] := bytes;
    }
    assert content[..|content|] == content;
    var size := nodeSize;
    if bytes != nodeSize {
      size := bytes;
    }
    var of := new OpenFile(content, size, cumsize);
    return Some(of);
  }

  lemma NoSizes(sizes: map<Id, nat>)
    ensures SizeUpTo([], sizes, 0) == 0
  {
  }

  lemma OneMoreSize(content: seq<Id>, sizes: map<Id, nat>, id: Id)
    requires id in sizes && forall x :: x in content ==> x in sizes
    ensures forall k :: 0 <= k <= |content| ==> SizeUpTo(content + [id], sizes, k) == SizeUpTo(content, sizes, k)
    ensures SizeUpTo(content + [id], sizes, |content| + 1) == SizeUpTo(content, sizes, |content|) + sizes[id]
  {
    for k := 0 to |content|
      invariant forall j :: 0 <= j <= k ==> SizeUpTo(content + [id], sizes, j) == SizeUpTo(content, sizes, j)
    {
      assert (content + [id])[k] == content[k];
    }
  }

  /** What was copied so far is what there is from the offset on. */
  ghost predicate Served(all: Bytes, offset: nat, data: Bytes) {
    data == [] || (offset + |data| <= |all| && data == all[offset..offset + |data|])
  }

  lemma NothingServed(all: Bytes, offset: nat)
    ensures Served(all, offset, [])
  {
  }

  lemma ServedMore(all: Bytes, offset: nat, data: Bytes, more: Bytes)
    requires Served(all, offset, data)
    requires offset + |data| + |more| <= |all| && more == all[offset + |data|..offset + |data| + |more|]
    ensures Served(all, offset, data + more)
  {
    var n := |data| + |more|;
    assert all[offset..offset + n] == all[offset..offset + |data|] + all[offset + |data|..offset + n];
  }

  lemma ServedAll(all: Bytes, offset: nat, size: nat, data: Bytes)
    requires Served(all, offset, data) && |data| <= size && (|data| < size ==> offset + |data| >= |all|)
    ensures data == Slice(all, offset, size)
  {
  }

  class OpenFile {
    const content: seq<Id>
    const nodeSize: nat
    const cumsize: array<nat>

    constructor (content: seq<Id>, nodeSize: nat, cumsize: array<nat>)
      ensures this.content == content && this.nodeSize == nodeSize && this.cumsize == cumsize
    {
      this.content, this.nodeSize, this.cumsize := content, nodeSize, cumsize;
    }

    ghost predicate Valid(sizes: map<Id, nat>)
      reads cumsize
    {
      Cumulative(cumsize[..], content, sizes) && nodeSize == SizeUpTo(content, sizes, |content|)
    }

    /** sort.Search: the first index whose value is greater than the offset. */
    method Search(offset: nat) returns (i: nat)
      requires forall j, k :: 0 <= j < k < cumsize.Length ==> cumsize[j] <= cumsize[k]
      ensures i <= cumsize.Length
      ensures forall j :: 0 <= j < i ==> cumsize[j] <= offset
      ensures forall j :: i <= j < cumsize.Length ==> cumsize[j] > offset
    {
      i := 0;
      var j := cumsize.Length;
      while i < j
        invariant 0 <= i <= j <= cumsize.Length
        invariant forall k :: 0 <= k < i ==> cumsize[k] <= offset
        invariant forall k :: j <= k < cumsize.Length ==> cumsize[k] > offset
      {
        var h := (i + j) / 2;
        if !(cumsize[h] > offset) {
          i := h + 1;
        } else {
          j := h;
        }
      }
    }

    /** The blob that a request begins in, or the end of the file. */
    method StartContent(sizes: map<Id, nat>, offset: nat) returns (i: nat)
      requires Valid(sizes)
      ensures i <= |content| && SizeUpTo(content, sizes, i) <= offset
      ensures i < |content| ==> offset < SizeUpTo(content, sizes, i + 1)
    {
      forall j, k | 0 <= j < k < cumsize.Length
        ensures cumsize[j] <= cumsize[k]
      {
        SizesGrow(content, sizes, j, k);
        assert cumsize[..][j] <= cumsize[..][k];
      }
      var found := Search(offset);
      assert cumsize[..][0] == 0;
      i := found - 1;
      assert cumsize[..][i] <= offset;
      if i < |content| {
        assert cumsize[..][i + 1] > offset;
      }
    }

    /** Fills the buffer of a request with the content of the file from the offset on.  Fails
        exactly when a blob that the request touches does not load. */
    method Read(l: Loader, offset: nat, size: nat, data: array<bv8>) returns (ok: bool, n: nat)
      requires Valid(l.sizes) && Known(content, l) && size <= data.Length
      modifies data
      ensures ok <==> Readable(content, l, offset, size)
      ensures n <= data.Length
      ensures ok ==> data[..n] == Slice(ContentFrom(content, l.blobs, 0), offset, size)
    {
      hide ContentFrom, Slice, Served;
      n := 0;
      WholeSize(content, l);
      NothingServed(ContentFrom(content, l.blobs, 0), offset);
      if nodeSize == 0 {
        forall k: nat | k < |content|
          ensures !Touches(content, l.sizes, offset, size, k)
        {
          SizesGrow(content, l.sizes, k + 1, |content|);
        }
        ServedAll(ContentFrom(content, l.blobs, 0), offset, size, data[..0]);
        return true, 0;
      }
      var i := StartContent(l.sizes, offset);
      assert cumsize[..][i] == SizeUpTo(content, l.sizes, i);
      var rest: nat := offset - cumsize[i];
      var remaining := size;
      ghost var start, all := i, ContentFrom(content, l.blobs, 0);
      while remaining > 0 && i < |content|
        invariant start <= i <= |content| && n + remaining == size && 0 <= remaining
        invariant remaining > 0 ==> SizeUpTo(content, l.sizes, i) + rest == offset + n
        invariant remaining == 0 && size > 0 ==> SizeUpTo(content, l.sizes, i) >= offset + size
        invariant rest > 0 ==> i == start && n == 0
        invariant Served(all, offset, data[..n])
        invariant forall k :: start <= k < i ==> content[k] !in l.broken
      {
        if content[i] in l.broken {
          BrokenTouched(l, offset, size, start, i);
          return false, n;
        }
        var copied := ReadBlob(l, data, i, rest, offset, n, remaining);
        rest := 0;
        remaining := remaining - copied;
        n := n + copied;
        i := i + 1;
      }
      NothingElseTouched(l, offset, size, start, i);
      ServedAll(all, offset, size, data[..n]);
      return true, n;
    }

    /** One round: the bytes of a blob, or as many of them as are asked for. */
    method ReadBlob(l: Loader, data: array<bv8>, i: nat, rest: nat, offset: nat, n: nat, remaining: nat)
      returns (copied: nat)
      requires Known(content, l) && i < |content| && rest <= l.sizes[content[i]] && n + remaining <= data.Length
      requires SizeUpTo(content, l.sizes, i) + rest == offset + n
      requires Served(ContentFrom(content, l.blobs, 0), offset, data[..n])
      modifies data
      ensures copied == if l.sizes[content[i]] - rest < remaining then l.sizes[content[i]] - rest else remaining
      ensures Served(ContentFrom(content, l.blobs, 0), offset, data[..n + copied])
    {
      hide ContentFrom, SizeUpTo;
      var blob := l.blobs[content[i]];
      if rest > 0 {
        blob := blob[rest..];
      }
      copied := Copy(data, n, remaining, blob);
      PartOfBlob(content, l, i, rest, copied);
      assert blob[..copied] == l.blobs[content[i]][rest..rest + copied];
      assert data[..n + copied] == data[..n] + data[n..n + copied];
      ServedMore(ContentFrom(content, l.blobs, 0), offset, data[..n], data[n..n + copied]);
    }

    /** copy: as many bytes as there are and fit. */
    method Copy(data: array<bv8>, n: nat, remaining: nat, blob: Bytes) returns (copied: nat)
      requires n + remaining <= data.Length
      modifies data
      ensures copied == if |blob| < remaining then |blob| else remaining
      ensures data[..n] == old(data[..n]) && data[n..n + copied] == blob[..copied]
    {
      copied := if |blob| < remaining then |blob| else remaining;
      forall k | 0 <= k < copied {
        data[n + k] := blob[k];
      }
    }

    lemma BrokenTouched(l: Loader, offset: nat, size: nat, start: nat, i: nat)
      requires Known(content, l) && start <= i < |content| && content[i] in l.broken
      requires size > 0 && SizeUpTo(content, l.sizes, start + 1) > offset &&
        SizeUpTo(content, l.sizes, i) < offset + size
      ensures !Readable(content, l, offset, size)
    {
      SizesGrow(content, l.sizes, start + 1, i + 1);
      assert Touches(content, l.sizes, offset, size, i);
    }

    lemma NothingElseTouched(l: Loader, offset: nat, size: nat, start: nat, i: nat)
      requires Known(content, l) && start <= i <= |content| && SizeUpTo(content, l.sizes, start) <= offset
      requires forall k :: start <= k < i ==> content[k] !in l.broken
      requires i == |content| || size == 0 || SizeUpTo(content, l.sizes, i) >= offset + size
      ensures Readable(content, l, offset, size)
    {
      forall k: nat | k < |content| && Touches(content, l.sizes, offset, size, k)
        ensures content[k] !in l.broken
      {
        if k < start {
          SizesGrow(content, l.sizes, k + 1, start);
        }
        if k >= i {
          SizesGrow(content, l.sizes, i, k);
        }
        assert start <= k < i;
      }
    }
  }
}
