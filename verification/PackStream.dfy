/** Reading some blobs of a pack with few requests (streamPack): the blobs are sorted by offset
    and split into parts, each part is read at once, and every blob is handed to a callback. */
module PackStream {
  import opened Repository
  import opened Sorting

  type Bytes = seq<bv8>

  /** Where a blob is in the pack. */
  datatype Blob = Blob(h: Handle, offset: nat, length: nat, compressed: bool)

  /** A blob handed to the callback, or the news that it cannot be read. */
  datatype Call = Call(h: Handle, plaintext: Option<Bytes>)

  /** The pack file, what reading it may do, the primitives, and the callers' functions. */
  datatype Env = Env(
    pack: Bytes, fails: (nat, nat) -> bool,
    open: Bytes -> Option<Bytes>, decompress: Bytes -> Option<Bytes>, hash: Bytes -> Id,
    loadBlob: Option<Handle -> Option<Bytes>>,     // looks for a copy elsewhere
    accepts: (nat, Call) -> bool)                  // the callback, given how many calls came before

  datatype Outcome = Streamed | Overlapping | LoadFailed | Rejected | InvalidLength | ReadError

  const DEFAULT_PACK_SIZE: nat := 16 * 1024 * 1024
  const MAX_CHUNK_SIZE: nat := 2 * DEFAULT_PACK_SIZE
  const MAX_UNUSED_RANGE: nat := 1024 * 1024
  const NONCE_SIZE: nat := 16

  function End(b: Blob): nat {
    b.offset + b.length
  }

  function ByOffset(): (Blob, Blob) -> bool {
    (a: Blob, b: Blob) => a.offset < b.offset
  }

  // ----- Splitting -----

  ghost predicate Sequential(blobs: seq<Blob>) {
    forall i :: 0 < i < |blobs| ==> blobs[i - 1].offset + blobs[i - 1].length <= blobs[i].offset
  }

  /** The part that begins at `lower` ends before blob `i`: it would become too large, or the
      gap is too large. */
  predicate SplitsBefore(blobs: seq<Blob>, lower: nat, i: nat)
    requires lower < i < |blobs|
  {
    End(blobs[i]) - blobs[lower].offset >= MAX_CHUNK_SIZE || blobs[i].offset - End(blobs[i - 1]) > MAX_UNUSED_RANGE
  }

  /** Where the part begins that blob `i - 1` is in. */
  function Lower(blobs: seq<Blob>, i: nat): (r: nat)
    requires i <= |blobs|
    ensures r <= i && (i > 0 ==> r < i)
  {
    if i <= 1 then 0
    else if SplitsBefore(blobs, Lower(blobs, i - 1), i - 1) then i - 1
    else Lower(blobs, i - 1)
  }

  /** The parts that end before blob `i - 1`. */
  function PartsUpTo(blobs: seq<Blob>, i: nat): seq<seq<Blob>>
    requires i <= |blobs|
  {
    if i <= 1 then []
    else if SplitsBefore(blobs, Lower(blobs, i - 1), i - 1) then
      PartsUpTo(blobs, i - 1) + [blobs[Lower(blobs, i - 1)..i - 1]]
    else PartsUpTo(blobs, i - 1)
  }

  function Parts(blobs: seq<Blob>): seq<seq<Blob>> {
    PartsUpTo(blobs, |blobs|) + [blobs[Lower(blobs, |blobs|)..]]
  }

  function Concat(parts: seq<seq<Blob>>): seq<Blob> {
    if parts == [] then [] else Concat(parts[..|parts| - 1]) + parts[|parts| - 1]
  }

  /** A part of several blobs has less than 32 MiB, and no gap in a part has more than 1 MiB. */
  ghost predicate Compact(part: seq<Blob>) {
    && part != []
    && (|part| > 1 ==> part[|part| - 1].offset + part[|part| - 1].length - part[0].offset < 33554432)
    && (forall i :: 0 < i < |part| ==> part[i].offset - (part[i - 1].offset + part[i - 1].length) <= 1048576)
  }

  /** The next part could not have been begun later. */
  ghost predicate MustSplit(part: seq<Blob>, next: seq<Blob>) {
    part != [] && next != []
    && (|| next[0].offset + next[0].length - part[0].offset >= 33554432
        || next[0].offset - (part[|part| - 1].offset + part[|part| - 1].length) > 1048576)
  }

  lemma ConcatSnoc(parts: seq<seq<Blob>>, part: seq<Blob>)
    ensures Concat(parts + [part]) == Concat(parts) + part
  {
    assert (parts + [part])[..|parts|] == parts;
  }

  lemma {:induction false} PartsSoFar(blobs: seq<Blob>, i: nat)
    requires i <= |blobs|
    ensures Concat(PartsUpTo(blobs, i)) == blobs[..Lower(blobs, i)]
    ensures forall p :: p in PartsUpTo(blobs, i) ==> Compact(p)
    ensures i > 0 ==> Compact(blobs[Lower(blobs, i)..i])
  {
    if i > 1 {
      PartsSoFar(blobs, i - 1);
      var lower := Lower(blobs, i - 1);
      if SplitsBefore(blobs, lower, i - 1) {
        ConcatSnoc(PartsUpTo(blobs, i - 1), blobs[lower..i - 1]);
        assert blobs[..i - 1] == blobs[..lower] + blobs[lower..i - 1];
      } else {
        OneMoreBlob(blobs, lower, i - 1);
      }
    }
  }

  lemma OneMoreBlob(blobs: seq<Blob>, lower: nat, i: nat)
    requires lower < i < |blobs| && Compact(blobs[lower..i]) && !SplitsBefore(blobs, lower, i)
    ensures Compact(blobs[lower..i + 1])
  {
    var part := blobs[lower..i + 1];
    forall k | 0 < k < |part|
      ensures part[k].offset - End(part[k - 1]) <= MAX_UNUSED_RANGE
    {
      if k < |part| - 1 {
        assert part[k] == blobs[lower..i][k] && part[k - 1] == blobs[lower..i][k - 1];
      }
    }
  }

  /** The parts are the blobs in their order; each part of several blobs spans less than two
      packs and has no large gaps. */
  lemma PartsAreCompact(blobs: seq<Blob>)
    requires blobs != []
    ensures Concat(Parts(blobs)) == blobs
    ensures forall p :: p in Parts(blobs) ==> Compact(p)
  {
    var n := |blobs|;
    PartsSoFar(blobs, n);
    ConcatSnoc(PartsUpTo(blobs, n), blobs[Lower(blobs, n)..]);
    assert blobs[Lower(blobs, n)..] == blobs[Lower(blobs, n)..n];
    assert blobs == blobs[..Lower(blobs, n)] + blobs[Lower(blobs, n)..];
  }

  lemma SplitHere(blobs: seq<Blob>, lower: nat, i: nat)
    requires lower < i < |blobs| && SplitsBefore(blobs, lower, i)
    ensures MustSplit(blobs[lower..i], blobs[i..i + 1])
  {
  }

  lemma NextMayGrow(part: seq<Blob>, next: seq<Blob>, more: seq<Blob>)
    requires MustSplit(part, next) && next <= more
    ensures MustSplit(part, more)
  {
  }

  lemma {:induction false} SplitsSoFar(blobs: seq<Blob>, i: nat)
    requires 0 < i <= |blobs|
    ensures var ps := PartsUpTo(blobs, i);
      && (forall k :: 0 < k < |ps| ==> MustSplit(ps[k - 1], ps[k]))
      && (ps != [] ==> MustSplit(ps[|ps| - 1], blobs[Lower(blobs, i)..i]))
  {
    hide MustSplit, SplitsBefore;
    if i > 1 {
      SplitsSoFar(blobs, i - 1);
      var lower := Lower(blobs, i - 1);
      var ps := PartsUpTo(blobs, i - 1);
      if SplitsBefore(blobs, lower, i - 1) {
        SplitHere(blobs, lower, i - 1);
      } else if ps != [] {
        NextMayGrow(ps[|ps| - 1], blobs[lower..i - 1], blobs[lower..i]);
      }
    }
  }

  /** No part ends early. */
  lemma SplitsOnlyWhereNeeded(blobs: seq<Blob>)
    requires blobs != []
    ensures var ps := Parts(blobs); forall k :: 0 < k < |ps| ==> MustSplit(ps[k - 1], ps[k])
  {
    SplitsSoFar(blobs, |blobs|);
    assert blobs[Lower(blobs, |blobs|)..] == blobs[Lower(blobs, |blobs|)..|blobs|];
  }

  // ----- What is delivered -----

  /** The plaintext of a blob, if it decrypts, decompresses and has the right hash. */
  function Decoded(env: Env, b: Blob, buf: Bytes): Option<Bytes> {
    var clear := env.open(buf);
    var plaintext := if clear.Some? && b.compressed then env.decompress(clear.value) else clear;
    if plaintext.Some? && env.hash(plaintext.value) == b.h.id then plaintext else None
  }

  /** These are the contents of the blob as its own range of the pack gives them: the range is
      there and opens, is decompressed exactly if the blob is compressed, and has the hash that
      is the id of the blob. */
  predicate Genuine(env: Env, b: Blob, contents: Bytes) {
    && b.offset + b.length <= |env.pack|
    && (var clear := env.open(env.pack[b.offset..b.offset + b.length]);
        && clear.Some?
        && (if b.compressed then env.decompress(clear.value) == Some(contents) else clear.value == contents))
    && env.hash(contents) == b.h.id
  }

  /** What the callback may get for a blob: its contents, or what the search for a copy gave. */
  predicate Proper(env: Env, b: Blob, c: Call) {
    && c.h == b.h
    && (c.plaintext.Some? ==>
          Genuine(env, b, c.plaintext.value) || (env.loadBlob.Some? && env.loadBlob.value(b.h) == c.plaintext))
    && (c.plaintext.None? ==> env.loadBlob.None? || env.loadBlob.value(b.h).None?)
  }

  lemma DeliveredIsProper(env: Env, loaded: bool, b: Blob)
    ensures Proper(env, b, Delivered(env, loaded, b))
    ensures loaded ==> forall x :: Genuine(env, b, x) ==> Delivered(env, loaded, b) == Call(b.h, Some(x))
  {
  }

  function Fallback(env: Env, h: Handle): Option<Bytes> {
    if env.loadBlob.Some? then env.loadBlob.value(h) else None
  }

  predicate Loads(env: Env, start: nat, length: nat) {
    !env.fails(start, length) && start + length <= |env.pack|
  }

  function Span(part: seq<Blob>): nat
    requires part != []
  {
    var n := |part| - 1;
    if End(part[n]) < part[0].offset then 0 else End(part[n]) - part[0].offset
  }

  predicate PartLoads(env: Env, part: seq<Blob>)
    requires part != []
  {
    Loads(env, part[0].offset, Span(part))
  }

  /** A blob is decoded from its own range of the pack; if that fails, or the part cannot be
      read, a copy from elsewhere does as well. */
  function Delivered(env: Env, loaded: bool, b: Blob): Call {
    var own := if loaded && End(b) <= |env.pack| then Decoded(env, b, env.pack[b.offset..End(b)]) else None;
    Call(b.h, if own.Some? then own else Fallback(env, b.h))
  }

  function PartCalls(env: Env, part: seq<Blob>): (r: seq<Call>)
    requires part != []
    ensures |r| == |part|
  {
    seq(|part|, i requires 0 <= i < |part| => Delivered(env, PartLoads(env, part), part[i]))
  }

  function CallsOf(env: Env, parts: seq<seq<Blob>>): seq<Call> {
    if parts == [] then []
    else
      var part := parts[|parts| - 1];
      CallsOf(env, parts[..|parts| - 1]) + if part == [] then [] else PartCalls(env, part)
  }

  // ----- Reading a part -----

  class ByteReader {
    var buf: Bytes

    constructor (buf: Bytes)
      ensures this.buf == buf
    {
      this.buf := buf;
    }

    method Discard(n: nat) returns (ok: bool)
      modifies this
      ensures ok <==> n <= |old(buf)|
      ensures buf == if ok then old(buf)[n..] else old(buf)
    {
      if |buf| < n {
        return false;
      }
      buf := buf[n..];
      return true;
    }

    method ReadFull(n: nat) returns (ok: bool, b: Bytes)
      modifies this
      ensures ok <==> n <= |old(buf)|
      ensures ok ==> b == old(buf)[..n] && buf == old(buf)[n..]
      ensures !ok ==> b == [] && buf == old(buf)
    {
      if |buf| < n {
        return false, [];
      }
      b := buf[..n];
      buf := buf[n..];
      return true, b;
    }
  }

  datatype NextResult = Eof | Value(h: Handle, plaintext: Option<Bytes>) | Failure(outcome: Outcome)

  class PackBlobIterator {
    const env: Env
    const rd: ByteReader
    var currentOffset: nat
    var blobs: seq<Blob>

    constructor (env: Env, data: Bytes, currentOffset: nat, blobs: seq<Blob>)
      ensures this.env == env && this.currentOffset == currentOffset && this.blobs == blobs
      ensures fresh(rd) && rd.buf == data
    {
      this.env, this.currentOffset, this.blobs := env, currentOffset, blobs;
      rd := new ByteReader(data);
    }

    /** The reader holds the pack from the current offset to the end of the last blob. */
    ghost predicate Valid(end: nat)
      reads this, rd
    {
      && currentOffset <= end <= |env.pack| && rd.buf == env.pack[currentOffset..end]
      && Sequential(blobs)
      && (blobs != [] ==> currentOffset <= blobs[0].offset && End(blobs[|blobs| - 1]) == end)
    }

    lemma ReadsOwnRange(b: Blob, buf: Bytes)
      ensures End(b) <= |env.pack| && buf == env.pack[b.offset..End(b)] ==>
        && (Decoded(env, b, buf).Some? ==> Genuine(env, b, Decoded(env, b, buf).value))
        && (Decoded(env, b, buf).None? ==> forall x :: !Genuine(env, b, x))
    {
    }

    /** The next blob comes from its own range of the pack, and no read fails. */
    method Next(ghost end: nat) returns (r: NextResult)
      modifies this, rd
      ensures r.Eof? <==> old(blobs) == []
      ensures old(blobs) != [] ==> blobs == old(blobs)[1..]
      ensures old(Valid(end)) && old(blobs) != [] && old(blobs)[0].length <= NONCE_SIZE ==> r == Failure(InvalidLength)
      ensures r.Value? && old(Valid(end)) && old(blobs) != [] ==>
        && r.h == old(blobs)[0].h && (r.plaintext.Some? ==> Genuine(env, old(blobs)[0], r.plaintext.value))
        && (r.plaintext.None? ==> forall x :: !Genuine(env, old(blobs)[0], x))
      ensures old(Valid(end)) && old(blobs) != [] && old(blobs)[0].length > NONCE_SIZE ==>
        && Valid(end) && End(old(blobs)[0]) <= |env.pack|
        && r == Value(old(blobs)[0].h, Decoded(env, old(blobs)[0], env.pack[old(blobs)[0].offset..End(old(blobs)[0])]))
    {
      hide Decoded, Genuine;
      if |blobs| == 0 {
        return Eof;
      }
      var entry := blobs[0];
      if Valid(end) {
        EndsInOrder(blobs, 0);
      }
      blobs := blobs[1..];
      var skipBytes := entry.offset - currentOffset;
      if skipBytes < 0 {
        return Failure(Overlapping);
      }
      var ok := rd.Discard(skipBytes);
      if !ok {
        return Failure(ReadError);
      }
      currentOffset := entry.offset;
      if old(Valid(end)) {
        assert rd.buf == env.pack[entry.offset..end];
      }
      var buf;
      ok, buf := rd.ReadFull(entry.length);
      if !ok {
        return Failure(ReadError);
      }
      currentOffset := entry.offset + entry.length;
      if entry.length <= NONCE_SIZE {
        return Failure(InvalidLength);
      }
      if old(Valid(end)) {
        assert buf == env.pack[entry.offset..End(entry)];
      }
      ReadsOwnRange(entry, buf);
      return Value(entry.h, Decoded(env, entry, buf));
    }
  }

  lemma {:induction false} EndsInOrder(blobs: seq<Blob>, i: nat)
    requires Sequential(blobs) && i < |blobs|
    ensures blobs[0].offset <= blobs[i].offset
    ensures End(blobs[i]) <= End(blobs[|blobs| - 1])
    decreases |blobs| - i
  {
    if i < |blobs| - 1 {
      EndsInOrder(blobs, i + 1);
    }
    OffsetsInOrder(blobs, i);
  }

  lemma {:induction false} OffsetsInOrder(blobs: seq<Blob>, i: nat)
    requires Sequential(blobs) && i < |blobs|
    ensures blobs[0].offset <= blobs[i].offset
  {
    if i > 0 {
      OffsetsInOrder(blobs, i - 1);
    }
  }

  class Stream {
    const env: Env
    var calls: seq<Call>

    constructor (env: Env)
      ensures this.env == env && calls == []
    {
      this.env, calls := env, [];
    }

    method HandleBlob(c: Call) returns (ok: bool)
      modifies this
      ensures calls == old(calls) + [c] && ok == env.accepts(|old(calls)|, c)
    {
      ok := env.accepts(|calls|, c);
      calls := calls + [c];
    }

    /** Why streaming a part stopped after the first `k` of its blobs. */
    ghost predicate Ended(part: seq<Blob>, before: seq<Call>, r: Outcome)
      requires part != []
      reads this
    {
      var k := |calls| - |before|;
      && 0 <= k <= |part| && calls == before + PartCalls(env, part)[..k]
      && (r == Streamed ==> k == |part|)
      && (r == LoadFailed ==> k == 0 && !PartLoads(env, part) && env.loadBlob.None?)
      && (r == Rejected ==> k > 0 && !env.accepts(|calls| - 1, calls[|calls| - 1]))
      && (r == InvalidLength ==> PartLoads(env, part) && k < |part| && part[k].length <= NONCE_SIZE)
      && r in {Streamed, LoadFailed, Rejected, InvalidLength}
    }

    method StreamPart(part: seq<Blob>) returns (r: Outcome)
      requires part != [] && Sequential(part)
      modifies this
      ensures Ended(part, old(calls), r)
    {
      EndsInOrder(part, 0);
      var dataStart := part[0].offset;
      var dataEnd := part[|part| - 1].offset + part[|part| - 1].length;
      if !Loads(env, dataStart, dataEnd - dataStart) {
        if env.loadBlob.None? {
          return LoadFailed;
        }
        r := StreamCopies(part);
        return;
      }
      r := StreamData(part, env.pack[dataStart..dataEnd]);
    }

    /** Hands over the blobs of a part that was read. */
    method StreamData(part: seq<Blob>, data: Bytes) returns (r: Outcome)
      requires part != [] && Sequential(part) && PartLoads(env, part)
      requires part[0].offset <= End(part[|part| - 1]) && data == env.pack[part[0].offset..End(part[|part| - 1])]
      modifies this
      ensures Ended(part, old(calls), r)
    {
      hide Decoded, PartCalls, Sequential;
      ghost var dataEnd := End(part[|part| - 1]);
      var it := new PackBlobIterator(env, data, part[0].offset, part);
      ghost var before := calls;
      ghost var i := 0;
      while true
        invariant 0 <= i <= |part| && it.Valid(dataEnd) && it.blobs == part[i..] && it.env == env
        invariant calls == before + PartCalls(env, part)[..i]
        decreases |part| - i
      {
        var val := it.Next(dataEnd);
        if val.Eof? {
          return Streamed;
        }
        if val.Failure? {
          return val.outcome;
        }
        var plaintext := val.plaintext;
        if plaintext.None? && env.loadBlob.Some? {
          plaintext := env.loadBlob.value(val.h);
        }
        PartCallAt(part, i);
        var ok := HandleBlob(Call(val.h, plaintext));
        i := i + 1;
        if !ok {
          return Rejected;
        }
      }
    }

    lemma PartCallAt(part: seq<Blob>, i: nat)
      requires i < |part|
      ensures PartCalls(env, part)[i] == Delivered(env, PartLoads(env, part), part[i])
      ensures PartCalls(env, part)[..i + 1] == PartCalls(env, part)[..i] + [PartCalls(env, part)[i]]
    {
    }

    /** The part cannot be read: looks for copies of its blobs elsewhere. */
    method StreamCopies(part: seq<Blob>) returns (r: Outcome)
      requires part != [] && !PartLoads(env, part) && env.loadBlob.Some?
      modifies this
      ensures Ended(part, old(calls), r)
    {
      ghost var before := calls;
      for i := 0 to |part|
        invariant calls == before + PartCalls(env, part)[..i]
      {
        var ok := HandleBlob(Call(part[i].h, env.loadBlob.value(part[i].h)));
        if !ok {
          return Rejected;
        }
      }
      return Streamed;
    }

    /** A part that was streamed, or not, after some others. */
    lemma PartEnds(order: seq<Blob>, ps: seq<seq<Blob>>, part: seq<Blob>, before: seq<Call>, r: Outcome)
      requires part != [] && Ended(part, before + CallsOf(env, ps), r)
      requires ps + [part] <= Parts(order) && forall b :: b in part ==> b in order
      ensures before <= calls <= before + CallsOf(env, Parts(order))
      ensures r == Streamed ==> calls == before + CallsOf(env, ps + [part])
      ensures r == Rejected ==> |calls| > |before| && !env.accepts(|calls| - 1, calls[|calls| - 1])
      ensures r == LoadFailed ==> env.loadBlob.None? && exists p :: p in Parts(order) && p != [] && !PartLoads(env, p)
      ensures r == InvalidLength ==> exists b :: b in order && b.length <= NONCE_SIZE
      ensures r !in {ReadError, Overlapping}
    {
      hide PartLoads, PartCalls, CallsOf, Parts;
      CallsSnoc(env, ps, part);
      CallsPrefix(env, ps + [part], Parts(order));
      var k := |calls| - |before + CallsOf(env, ps)|;
      assert PartCalls(env, part) == PartCalls(env, part)[..k] + PartCalls(env, part)[k..];
      assert calls == before + (CallsOf(env, ps) + PartCalls(env, part)[..k]);
      if r == LoadFailed {
        assert (ps + [part])[|ps|] == part;
        assert part in Parts(order);
      }
      if r == InvalidLength {
        assert part[k] in part;
      }
    }

    /** Sorts the blobs and streams them part by part.  Whatever happens, the callback gets
        nothing but the deliveries of the parts, in their order and from the beginning. */
    method StreamPack(blobs: seq<Blob>) returns (r: Outcome, order: seq<Blob>)
      modifies this
      ensures multiset(order) == multiset(blobs)
      ensures forall i, j :: 0 <= i < j < |order| ==> order[i].offset <= order[j].offset
      ensures |old(calls)| <= |calls| <= |old(calls)| + |order| && (r == Streamed ==> |calls| == |old(calls)| + |order|)
      ensures forall i :: |old(calls)| <= i < |calls| ==> Proper(env, order[i - |old(calls)|], calls[i])
      ensures old(calls) <= calls <= old(calls) + CallsOf(env, Parts(order))
      ensures r == Streamed ==> calls == old(calls) + CallsOf(env, Parts(order)) && Sequential(order)
      ensures r == Overlapping ==> !Sequential(order)
      ensures r == Rejected ==> |calls| > |old(calls)| && !env.accepts(|calls| - 1, calls[|calls| - 1])
      ensures r == LoadFailed ==> env.loadBlob.None? && exists p :: p in Parts(order) && p != [] && !PartLoads(env, p)
      ensures r == InvalidLength ==> exists b :: b in blobs && b.length <= 16
      ensures r != ReadError
    {
      hide Parts, CallsOf, PartLoads, Sequential, WeakOrder, Ordered;
      OffsetIsWeakOrder(blobs);
      order := SortBy(blobs, ByOffset());
      SameMembers(blobs, order);
      if |order| == 0 {
        NothingToStream(env, order);
        return Streamed, order;
      }
      ghost var before := calls;
      r := StreamOrdered(order);
      PartsAreCompact(order);
      CallsAreProper(env, Parts(order));
      ProperSoFar(order, before);
    }

    /** The calls so far are those for the first blobs. */
    lemma ProperSoFar(order: seq<Blob>, before: seq<Call>)
      requires before <= calls <= before + CallsOf(env, Parts(order)) && |CallsOf(env, Parts(order))| == |order|
      requires forall i :: 0 <= i < |order| ==> Proper(env, order[i], CallsOf(env, Parts(order))[i])
      ensures |before| <= |calls| <= |before| + |order|
      ensures forall i :: |before| <= i < |calls| ==> Proper(env, order[i - |before|], calls[i])
    {
      hide Proper, CallsOf, Parts;
      var more := CallsOf(env, Parts(order));
      forall i | |before| <= i < |calls|
        ensures calls[i] == more[i - |before|]
      {
        assert calls[i] == (before + more)[i];
      }
    }

    method StreamOrdered(order: seq<Blob>) returns (r: Outcome)
      requires order != []
      modifies this
      ensures old(calls) <= calls <= old(calls) + CallsOf(env, Parts(order))
      ensures r == Streamed ==> calls == old(calls) + CallsOf(env, Parts(order)) && Sequential(order)
      ensures r == Overlapping ==> !Sequential(order)
      ensures r == Rejected ==> |calls| > |old(calls)| && !env.accepts(|calls| - 1, calls[|calls| - 1])
      ensures r == LoadFailed ==> env.loadBlob.None? && exists p :: p in Parts(order) && p != [] && !PartLoads(env, p)
      ensures r == InvalidLength ==> exists b :: b in order && b.length <= NONCE_SIZE
      ensures r != ReadError
    {
      hide PartLoads, PartCalls, CallsOf, Concat, Lower, PartsUpTo, Parts, Sequential;
      ghost var before := calls;
      var lowerIdx := 0;
      var lastPos := order[0].offset;
      PartsStart(env, order);
      for i := 0 to |order|
        invariant lowerIdx == Lower(order, i) && Sequential(order[..i])
        invariant lastPos == if i == 0 then order[0].offset else End(order[i - 1])
        invariant calls == before + CallsOf(env, PartsUpTo(order, i))
      {
        PartsGrow(order, i);
        if order[i].offset < lastPos {
          CallsPrefix(env, PartsUpTo(order, i), Parts(order));
          NotSequential(order, i);
          return Overlapping;
        }
        var chunkSizeAfter := order[i].offset + order[i].length - order[lowerIdx].offset;
        var split := false;
        if i > lowerIdx && chunkSizeAfter >= MAX_CHUNK_SIZE {
          split := true;
        }
        if order[i].offset - lastPos > MAX_UNUSED_RANGE {
          split := true;
        }
        SequentialSnoc(order, i);
        PartsStep(order, i);
        if split {
          PartsGrow(order, i + 1);
          SequentialPart(order, lowerIdx, i);
          r := StreamPart(order[lowerIdx..i]);
          PartEnds(order, PartsUpTo(order, i), order[lowerIdx..i], before, r);
          if r != Streamed {
            return;
          }
          lowerIdx := i;
        }
        lastPos := order[i].offset + order[i].length;
      }
      PartsEnd(order);
      SequentialPart(order, lowerIdx, |order|);
      r := StreamPart(order[lowerIdx..]);
      PartEnds(order, PartsUpTo(order, |order|), order[lowerIdx..], before, r);
    }
  }

  lemma NothingToStream(env: Env, blobs: seq<Blob>)
    requires blobs == []
    ensures CallsOf(env, Parts(blobs)) == [] && Sequential(blobs)
  {
    assert Parts(blobs) == [[]];
    assert CallsOf(env, [[]][..0]) == [];
  }

  lemma PartsStart(env: Env, blobs: seq<Blob>)
    requires blobs != []
    ensures Lower(blobs, 0) == 0 && PartsUpTo(blobs, 0) == [] && CallsOf(env, []) == [] && Sequential(blobs[..0])
  {
  }

  lemma PartsStep(blobs: seq<Blob>, i: nat)
    requires i < |blobs|
    ensures i == 0 ==> Lower(blobs, 0) == Lower(blobs, 1) == 0 && PartsUpTo(blobs, 1) == PartsUpTo(blobs, 0)
    ensures i > 0 && SplitsBefore(blobs, Lower(blobs, i), i) ==>
      Lower(blobs, i + 1) == i && PartsUpTo(blobs, i + 1) == PartsUpTo(blobs, i) + [blobs[Lower(blobs, i)..i]]
    ensures i > 0 && !SplitsBefore(blobs, Lower(blobs, i), i) ==>
      Lower(blobs, i + 1) == Lower(blobs, i) && PartsUpTo(blobs, i + 1) == PartsUpTo(blobs, i)
  {
  }

  lemma PartsEnd(blobs: seq<Blob>)
    requires blobs != []
    ensures Parts(blobs) == PartsUpTo(blobs, |blobs|) + [blobs[Lower(blobs, |blobs|)..]]
    ensures blobs[..|blobs|] == blobs && blobs[Lower(blobs, |blobs|)..] == blobs[Lower(blobs, |blobs|)..|blobs|]
  {
  }

  lemma {:induction false} PartsGrow(blobs: seq<Blob>, i: nat)
    requires i <= |blobs|
    ensures PartsUpTo(blobs, i) <= Parts(blobs)
    decreases |blobs| - i
  {
    if i < |blobs| {
      PartsGrow(blobs, i + 1);
      PartsStep(blobs, i);
    }
  }

  lemma CallsSnoc(env: Env, ps: seq<seq<Blob>>, part: seq<Blob>)
    requires part != []
    ensures CallsOf(env, ps + [part]) == CallsOf(env, ps) + PartCalls(env, part)
  {
    assert (ps + [part])[..|ps|] == ps;
  }

  lemma {:induction false} CallsPrefix(env: Env, ps: seq<seq<Blob>>, qs: seq<seq<Blob>>)
    requires ps <= qs
    ensures CallsOf(env, ps) <= CallsOf(env, qs)
  {
    if ps != qs {
      CallsPrefix(env, ps, qs[..|qs| - 1]);
    }
  }

  lemma NotSequential(blobs: seq<Blob>, i: nat)
    requires 0 < i < |blobs| && blobs[i].offset < End(blobs[i - 1])
    ensures !Sequential(blobs)
  {
  }

  lemma SequentialSnoc(blobs: seq<Blob>, i: nat)
    requires i < |blobs| && Sequential(blobs[..i]) && (i > 0 ==> End(blobs[i - 1]) <= blobs[i].offset)
    ensures Sequential(blobs[..i + 1])
  {
    assert forall k :: 0 <= k < i ==> blobs[..i + 1][k] == blobs[..i][k];
  }

  lemma SequentialPart(blobs: seq<Blob>, lower: nat, i: nat)
    requires lower <= i <= |blobs| && Sequential(blobs[..i])
    ensures Sequential(blobs[lower..i]) && forall b :: b in blobs[lower..i] ==> b in blobs
  {
    assert forall k :: 0 <= k < i - lower ==> blobs[lower..i][k] == blobs[..i][lower + k];
  }

  lemma OffsetIsWeakOrder(blobs: seq<Blob>)
    ensures WeakOrder(blobs, ByOffset())
  {
  }

  // ----- Every blob once, in order, from its own range -----

  /** On success the calls are one for each blob, in the order of the offsets. */
  lemma {:induction false} CallsAreInOrder(env: Env, ps: seq<seq<Blob>>)
    requires forall p :: p in ps ==> p != []
    ensures |CallsOf(env, ps)| == |Concat(ps)|
    ensures forall i :: 0 <= i < |Concat(ps)| ==>
      CallsOf(env, ps)[i] in {Delivered(env, true, Concat(ps)[i]), Delivered(env, false, Concat(ps)[i])}
    ensures (forall p :: p in ps ==> PartLoads(env, p)) ==>
      forall i :: 0 <= i < |Concat(ps)| ==> CallsOf(env, ps)[i] == Delivered(env, true, Concat(ps)[i])
  {
    hide Delivered, PartLoads;
    if ps != [] {
      var n := |ps| - 1;
      assert forall p :: p in ps[..n] ==> p in ps;
      CallsAreInOrder(env, ps[..n]);
      assert ps[n] in ps;
    }
  }

  /** No call is for corrupt data. */
  lemma CallsAreProper(env: Env, ps: seq<seq<Blob>>)
    requires forall p :: p in ps ==> p != []
    ensures |CallsOf(env, ps)| == |Concat(ps)|
    ensures forall i :: 0 <= i < |Concat(ps)| ==> Proper(env, Concat(ps)[i], CallsOf(env, ps)[i])
  {
    hide Delivered, PartLoads, Proper, CallsOf, Concat;
    CallsAreInOrder(env, ps);
    forall i | 0 <= i < |Concat(ps)|
      ensures Proper(env, Concat(ps)[i], CallsOf(env, ps)[i])
    {
      DeliveredIsProper(env, true, Concat(ps)[i]);
      DeliveredIsProper(env, false, Concat(ps)[i]);
    }
  }

  lemma {:induction false} InConcat(ps: seq<seq<Blob>>, p: seq<Blob>, b: Blob)
    requires p in ps && b in p
    ensures b in Concat(ps)
  {
    var n := |ps| - 1;
    if p != ps[n] {
      assert p in ps[..n];
      InConcat(ps[..n], p, b);
    }
  }

  /** If no request fails, the result does not depend on how the blobs were split: each one is
      decoded from its own range of the pack, or a copy is found elsewhere. */
  lemma StreamingIsPerBlob(env: Env, order: seq<Blob>)
    requires order != [] && forall start, length :: !env.fails(start, length)
    requires Sequential(order) && End(order[|order| - 1]) <= |env.pack|
    ensures |CallsOf(env, Parts(order))| == |order|
    ensures forall i :: 0 <= i < |order| ==> order[i].offset <= End(order[i]) <= |env.pack|
    ensures forall i :: 0 <= i < |order| ==>
      var own := Decoded(env, order[i], env.pack[order[i].offset..End(order[i])]);
      CallsOf(env, Parts(order))[i] == Call(order[i].h, if own.Some? then own else Fallback(env, order[i].h))
    ensures forall i, contents :: 0 <= i < |order| && Genuine(env, order[i], contents) ==>
      CallsOf(env, Parts(order))[i] == Call(order[i].h, Some(contents))
  {
    hide Decoded, PartLoads, PartCalls, CallsOf, Concat, Parts, Sequential;
    PartsAreCompact(order);
    forall i | 0 <= i < |order|
      ensures End(order[i]) <= |env.pack|
    {
      EndsInOrder(order, i);
    }
    forall p | p in Parts(order)
      ensures p != [] && PartLoads(env, p)
    {
      InConcat(Parts(order), p, p[|p| - 1]);
      InConcat(Parts(order), p, p[0]);
      PartFits(env, p);
    }
    CallsAreInOrder(env, Parts(order));
    hide Genuine;
    forall i, contents | 0 <= i < |order| && Genuine(env, order[i], contents)
      ensures CallsOf(env, Parts(order))[i] == Call(order[i].h, Some(contents))
    {
      DeliveredIsProper(env, true, order[i]);
    }
  }

  lemma PartFits(env: Env, part: seq<Blob>)
    requires part != [] && (forall start, length :: !env.fails(start, length))
    requires part[0].offset <= |env.pack| && End(part[|part| - 1]) <= |env.pack|
    ensures PartLoads(env, part)
  {
  }
}
