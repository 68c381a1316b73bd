/** Windows extended attributes as a FILE_FULL_EA_INFORMATION buffer (section 2.4.15 of
    [MS-FSCC]): a header of eight bytes, the name, a zero byte and the value, padded to a
    multiple of four bytes. */
module ExtendedAttributes {
  newtype byte = x: int | 0 <= x < 256

  type Bytes = seq<byte>

  datatype ExtendedAttribute = ExtendedAttribute(name: Bytes, value: Bytes, flags: byte)

  datatype Error = InvalidBuffer | NameTooLarge | ValueTooLarge

  datatype Result<T> = Ok(value: T) | Err(error: Error)

  datatype Header = Header(nextEntryOffset: nat, flags: byte, nameLength: nat, valueLength: nat)

  const HEADER_SIZE: nat := 8
  const MAX_NAME: nat := 255
  const MAX_VALUE: nat := 65535
  const WORD: nat := 0x1_0000_0000

  // ----- Numbers, least significant byte first -----

  function LittleEndian(n: nat, width: nat): (r: Bytes)
    ensures |r| == width
  {
    if width == 0 then [] else [(n % 256) as byte] + LittleEndian(n / 256, width - 1)
  }

  function Number(b: Bytes): nat {
    if b == [] then 0 else b[0] as nat + 256 * Number(b[1..])
  }

  function Power(width: nat): nat {
    if width == 0 then 1 else 256 * Power(width - 1)
  }

  lemma {:induction false} NumberRoundTrip(n: nat, width: nat)
    requires n < Power(width)
    ensures Number(LittleEndian(n, width)) == n
  {
    if width > 0 {
      NumberRoundTrip(n / 256, width - 1);
      var b := LittleEndian(n, width);
      assert b[1..] == LittleEndian(n / 256, width - 1);
    }
  }

  lemma Powers()
    ensures Power(1) == 256 && Power(2) == 65536 && Power(4) == WORD
  {
    assert Power(2) == 256 * Power(1) && Power(3) == 256 * Power(2) && Power(4) == 256 * Power(3);
  }

  // ----- Entries -----

  function HeaderBytes(h: Header): (r: Bytes)
    ensures |r| == HEADER_SIZE
  {
    LittleEndian(h.nextEntryOffset, 4) + [h.flags] + LittleEndian(h.nameLength, 1) + LittleEndian(h.valueLength, 2)
  }

  function ReadHeader(b: Bytes): Header
    requires |b| >= HEADER_SIZE
  {
    Header(Number(b[..4]), b[4], Number(b[5..6]), Number(b[6..8]))
  }

  lemma HeaderRoundTrip(h: Header, rest: Bytes)
    requires h.nextEntryOffset < WORD && h.nameLength <= MAX_NAME && h.valueLength <= MAX_VALUE
    ensures ReadHeader(HeaderBytes(h) + rest) == h
  {
    Powers();
    NumberRoundTrip(h.nextEntryOffset, 4);
    NumberRoundTrip(h.nameLength, 1);
    NumberRoundTrip(h.valueLength, 2);
    var b := HeaderBytes(h) + rest;
    assert b[..4] == LittleEndian(h.nextEntryOffset, 4);
    assert b[5..6] == LittleEndian(h.nameLength, 1);
    assert b[6..8] == LittleEndian(h.valueLength, 2);
  }

  // ----- The layout, byte by byte -----

  /** Where the next entry begins, counted from the beginning of this one. */
  function NextOffset(b: Bytes): nat
    requires |b| >= 8
  {
    b[0] as nat + 256 * b[1] as nat + 65536 * b[2] as nat + 16777216 * b[3] as nat
  }

  function ValueLength(b: Bytes): nat
    requires |b| >= 8
  {
    b[6] as nat + 256 * b[7] as nat
  }

  lemma {:induction false} FourBytes(b: Bytes)
    requires |b| == 4
    ensures Number(b) == b[0] as nat + 256 * b[1] as nat + 65536 * b[2] as nat + 16777216 * b[3] as nat
  {
    TwoBytes(b[2..]);
    assert b[1..][1..] == b[2..];
    assert Number(b[1..]) == b[1] as nat + 256 * Number(b[2..]);
  }

  lemma {:induction false} TwoBytes(b: Bytes)
    requires |b| == 2
    ensures Number(b) == b[0] as nat + 256 * b[1] as nat
  {
    OneByte(b[1..]);
  }

  lemma {:induction false} OneByte(b: Bytes)
    requires |b| == 1
    ensures Number(b) == b[0] as nat
  {
    assert b[1..] == [];
  }

  /** What the header of a buffer says. */
  lemma HeaderFields(b: Bytes)
    requires |b| >= HEADER_SIZE
    ensures ReadHeader(b) == Header(NextOffset(b), b[4], b[5] as nat, ValueLength(b))
  {
    FourBytes(b[..4]);
    OneByte(b[5..6]);
    TwoBytes(b[6..8]);
  }

  /** Reads the first entry; also returns where the next one begins. */
  function ParseEa(b: Bytes): (r: Result<(ExtendedAttribute, Bytes)>)
    ensures r.Ok? ==> |b| > HEADER_SIZE && |r.value.1| < |b|
  {
    if |b| < HEADER_SIZE then Err(InvalidBuffer)
    else
      var info := ReadHeader(b);
      var valueOffset := HEADER_SIZE + info.nameLength + 1;
      if info.valueLength + valueOffset > |b| || info.nextEntryOffset > |b| then Err(InvalidBuffer)
      else
        var ea := ExtendedAttribute(b[HEADER_SIZE..HEADER_SIZE + info.nameLength],
                                    b[valueOffset..valueOffset + info.valueLength], info.flags);
        Ok((ea, if info.nextEntryOffset != 0 then b[info.nextEntryOffset..] else []))
  }

  /** The buffer begins with an entry: where it has name, value and flags, and what comes next. */
  ghost predicate BeginsWith(b: Bytes, ea: ExtendedAttribute, rest: Bytes) {
    && |b| >= 8 && 9 + b[5] as nat + ValueLength(b) <= |b| && NextOffset(b) <= |b|
    && ea.name == b[8..8 + b[5] as nat] && ea.flags == b[4]
    && ea.value == b[9 + b[5] as nat..9 + b[5] as nat + ValueLength(b)]
    && rest == if NextOffset(b) == 0 then [] else b[NextOffset(b)..]
  }

  /** Parsing fails exactly if the buffer is too short for the header, for the lengths in it or
      for the offset in it. */
  lemma ParsedByBytes(b: Bytes)
    ensures ParseEa(b).Err? <==> |b| < 8 || 9 + b[5] as nat + ValueLength(b) > |b| || NextOffset(b) > |b|
    ensures ParseEa(b).Err? ==> ParseEa(b).error == InvalidBuffer
    ensures ParseEa(b).Ok? ==> BeginsWith(b, ParseEa(b).value.0, ParseEa(b).value.1)
  {
    hide ReadHeader, NextOffset, ValueLength;
    if |b| >= 8 {
      HeaderFields(b);
    }
  }

  function EntrySize(ea: ExtendedAttribute): nat {
    HEADER_SIZE + |ea.name| + 1 + |ea.value|
  }

  /** Rounded up to a multiple of four. */
  function Padded(n: nat): (r: nat)
    ensures n <= r < n + 4 && r % 4 == 0
  {
    (n + 3) / 4 * 4
  }

  function Zeros(n: nat): (r: Bytes)
    ensures |r| == n
  {
    seq(n, i => 0)
  }

  function EntryBytes(ea: ExtendedAttribute, last: bool): Bytes {
    var size := Padded(EntrySize(ea));
    var info := Header(if last then 0 else size, ea.flags, |ea.name|, |ea.value|);
    HeaderBytes(info) + ea.name + [0] + ea.value + Zeros(size - EntrySize(ea))
  }

  predicate Fits(ea: ExtendedAttribute) {
    |ea.name| <= MAX_NAME && |ea.value| <= MAX_VALUE
  }

  function Misfit(ea: ExtendedAttribute): Error {
    if |ea.name| > MAX_NAME then NameTooLarge else ValueTooLarge
  }

  /** The bytes of one entry: where the next one begins, flags, lengths, name, zero byte, value,
      and zeros up to a multiple of four bytes. */
  ghost predicate LaidOut(b: Bytes, ea: ExtendedAttribute, last: bool) {
    var n, v := |ea.name|, |ea.value|;
    && |b| % 4 == 0 && 9 + n + v <= |b| < 9 + n + v + 4
    && NextOffset(b) == (if last then 0 else |b|) && b[4] == ea.flags && b[5] as nat == n && ValueLength(b) == v
    && b[8..8 + n] == ea.name && b[8 + n] == 0 && b[9 + n..9 + n + v] == ea.value
    && forall i :: 9 + n + v <= i < |b| ==> b[i] == 0
  }

  lemma EntryIsLaidOut(ea: ExtendedAttribute, last: bool)
    requires Fits(ea)
    ensures LaidOut(EntryBytes(ea, last), ea, last)
  {
    hide HeaderBytes, ReadHeader, Zeros, Number, LittleEndian, NextOffset, ValueLength, LaidOut;
    var size := Padded(EntrySize(ea));
    var info := Header(if last then 0 else size, ea.flags, |ea.name|, |ea.value|);
    var zeros := Zeros(size - EntrySize(ea));
    Positions(HeaderBytes(info), ea.name, ea.value, zeros);
    HeaderRoundTrip(info, ea.name + [0] + ea.value + zeros);
    HeaderFields(EntryBytes(ea, last));
    ZerosAreZero(size - EntrySize(ea));
    PutTogether(EntryBytes(ea, last), ea, last, zeros);
  }

  lemma PutTogether(b: Bytes, ea: ExtendedAttribute, last: bool, zeros: Bytes)
    requires var n, v := |ea.name|, |ea.value|;
      && |b| == 9 + n + v + |zeros| && |b| % 4 == 0 && |zeros| < 4
      && NextOffset(b) == (if last then 0 else |b|) && b[4] == ea.flags && b[5] as nat == n && ValueLength(b) == v
      && b[8..8 + n] == ea.name && b[8 + n] == 0 && b[9 + n..9 + n + v] == ea.value
      && forall i :: 0 <= i < |zeros| ==> b[9 + n + v + i] == zeros[i]
    requires forall i :: 0 <= i < |zeros| ==> zeros[i] == 0
    ensures LaidOut(b, ea, last)
  {
    hide NextOffset, ValueLength;
    var start := 9 + |ea.name| + |ea.value|;
    forall i | start <= i < |b|
      ensures b[i] == 0
    {
      assert b[start + (i - start)] == zeros[i - start];
    }
  }

  lemma Positions(header: Bytes, name: Bytes, value: Bytes, zeros: Bytes)
    requires |header| == 8
    ensures var b, n, v := header + name + [0] + value + zeros, |name|, |value|;
      && b == header + (name + [0] + value + zeros) && |b| == 9 + n + v + |zeros|
      && b[8..8 + n] == name && b[8 + n] == 0 && b[9 + n..9 + n + v] == value
      && forall i :: 0 <= i < |zeros| ==> b[9 + n + v + i] == zeros[i]
  {
  }

  lemma ZerosAreZero(n: nat)
    ensures forall i :: 0 <= i < n ==> Zeros(n)[i] == 0
  {
  }

  /** Where name, value and the rest are in an entry. */
  lemma Layout(header: Bytes, name: Bytes, value: Bytes, zeros: Bytes, rest: Bytes)
    ensures var b, v := header + name + [0] + value + zeros + rest, |header| + |name| + 1;
      && b == header + (name + [0] + value + zeros + rest)
      && b[|header|..|header| + |name|] == name && b[v..v + |value|] == value && b[v + |value| + |zeros|..] == rest
  {
  }

  /** An entry that was written is read back, and the next one begins right after it. */
  lemma EntryRoundTrip(ea: ExtendedAttribute, last: bool, rest: Bytes)
    requires Fits(ea) && (last ==> rest == [])
    ensures |EntryBytes(ea, last)| == Padded(EntrySize(ea))
    ensures ParseEa(EntryBytes(ea, last) + rest) == Ok((ea, rest))
  {
    hide HeaderBytes, ReadHeader, Zeros;
    var size := Padded(EntrySize(ea));
    var info := Header(if last then 0 else size, ea.flags, |ea.name|, |ea.value|);
    var zeros := Zeros(size - EntrySize(ea));
    var b := EntryBytes(ea, last) + rest;
    Layout(HeaderBytes(info), ea.name, ea.value, zeros, rest);
    HeaderRoundTrip(info, ea.name + [0] + ea.value + zeros + rest);
    assert b[size..] == rest;
  }

  // ----- Lists -----

  function Encoding(eas: seq<ExtendedAttribute>): Bytes {
    if eas == [] then [] else EntryBytes(eas[0], |eas| == 1) + Encoding(eas[1..])
  }

  /** A buffer with these attributes, one entry after the other. */
  ghost predicate AllLaidOut(b: Bytes, eas: seq<ExtendedAttribute>)
    decreases |eas|
  {
    if eas == [] then b == []
    else exists n: nat :: n <= |b| && LaidOut(b[..n], eas[0], |eas| == 1) && AllLaidOut(b[n..], eas[1..])
  }

  lemma {:induction false} EncodingIsLaidOut(eas: seq<ExtendedAttribute>)
    requires forall ea :: ea in eas ==> Fits(ea)
    ensures AllLaidOut(Encoding(eas), eas)
  {
    hide EntryBytes, LaidOut;
    if eas != [] {
      EntryIsLaidOut(eas[0], |eas| == 1);
      EncodingIsLaidOut(eas[1..]);
      var b, n := Encoding(eas), |EntryBytes(eas[0], |eas| == 1)|;
      assert b[..n] == EntryBytes(eas[0], |eas| == 1) && b[n..] == Encoding(eas[1..]);
    }
  }

  function Decoding(b: Bytes): Result<seq<ExtendedAttribute>>
    decreases |b|
  {
    if b == [] then Ok([])
    else
      var first := ParseEa(b);
      if first.Err? then Err(first.error)
      else
        var rest := Decoding(first.value.1);
        if rest.Err? then rest else Ok([first.value.0] + rest.value)
  }

  /** A buffer in which these attributes can be read one after the other. */
  ghost predicate ReadsAs(b: Bytes, eas: seq<ExtendedAttribute>)
    decreases |eas|
  {
    if eas == [] then b == []
    else b != [] && exists rest :: BeginsWith(b, eas[0], rest) && ReadsAs(rest, eas[1..])
  }

  /** Decoding succeeds with these attributes exactly if they can be read from the buffer. */
  lemma {:induction false} DecodingIff(b: Bytes, eas: seq<ExtendedAttribute>)
    ensures Decoding(b) == Ok(eas) <==> ReadsAs(b, eas)
    decreases |b|
  {
    hide ParseEa, BeginsWith;
    if b != [] {
      ParsedByBytes(b);
      if ParseEa(b).Ok? {
        var ea, rest := ParseEa(b).value.0, ParseEa(b).value.1;
        OneBeginning(b, ea, rest);
        if eas != [] {
          DecodingIff(rest, eas[1..]);
          assert eas == [eas[0]] + eas[1..];
        }
        if Decoding(rest).Ok? {
          assert ([ea] + Decoding(rest).value)[1..] == Decoding(rest).value;
        }
      } else {
        NoBeginning(b);
      }
    }
  }

  lemma OneBeginning(b: Bytes, ea: ExtendedAttribute, rest: Bytes)
    requires BeginsWith(b, ea, rest)
    ensures forall x, r :: BeginsWith(b, x, r) <==> x == ea && r == rest
  {
  }

  lemma NoBeginning(b: Bytes)
    requires ParseEa(b).Err?
    ensures forall x, r :: !BeginsWith(b, x, r)
  {
    ParsedByBytes(b);
    hide ParseEa, NextOffset, ValueLength;
  }

  /** What was encoded can be decoded. */
  lemma {:induction false} RoundTrip(eas: seq<ExtendedAttribute>)
    requires forall ea :: ea in eas ==> Fits(ea)
    ensures Decoding(Encoding(eas)) == Ok(eas)
  {
    if eas != [] {
      EntryRoundTrip(eas[0], |eas| == 1, Encoding(eas[1..]));
      RoundTrip(eas[1..]);
      assert eas == [eas[0]] + eas[1..];
    }
  }

  lemma {:induction false} NumberBound(b: Bytes)
    ensures Number(b) < Power(|b|)
  {
    if b != [] {
      NumberBound(b[1..]);
    }
  }

  /** Whatever a buffer holds, what is read from it can be written and read again. */
  lemma {:induction false} DecodedFits(b: Bytes)
    requires Decoding(b).Ok?
    ensures forall ea :: ea in Decoding(b).value ==> Fits(ea)
    ensures Decoding(Encoding(Decoding(b).value)) == Decoding(b)
    decreases |b|
  {
    if b != [] {
      Powers();
      NumberBound(b[5..6]);
      NumberBound(b[6..8]);
      DecodedFits(ParseEa(b).value.1);
    }
    RoundTrip(Decoding(b).value);
  }

  method DecodeExtendedAttributes(buf: Bytes) returns (r: Result<seq<ExtendedAttribute>>)
    ensures r == Decoding(buf)
    ensures r.Ok? ==> ReadsAs(buf, r.value)
    ensures r.Err? ==> forall eas :: !ReadsAs(buf, eas)
  {
    forall eas
      ensures Decoding(buf) == Ok(eas) <==> ReadsAs(buf, eas)
    {
      DecodingIff(buf, eas);
    }
    hide ReadsAs;
    var b := buf;
    var eas: seq<ExtendedAttribute> := [];
    assert Decoding(b).Ok? ==> eas + Decoding(b).value == Decoding(b).value;
    while |b| != 0
      invariant Decoding(buf) == (if Decoding(b).Err? then Decoding(b) else Ok(eas + Decoding(b).value))
      decreases |b|
    {
      var first := ParseEa(b);
      if first.Err? {
        return Err(first.error);
      }
      assert Decoding(b).Ok? ==> eas + Decoding(b).value == eas + [first.value.0] + Decoding(first.value.1).value;
      eas := eas + [first.value.0];
      b := first.value.1;
    }
    assert b == [] && eas + [] == eas;
    return Ok(eas);
  }

  class Buffer {
    var bytes: Bytes

    constructor ()
      ensures bytes == []
    {
      bytes := [];
    }

    method Write(b: Bytes)
      modifies this
      ensures bytes == old(bytes) + b
    {
      bytes := bytes + b;
    }
  }

  lemma EntryWritten(before: Bytes, ea: ExtendedAttribute, last: bool)
    ensures var size := Padded(EntrySize(ea));
      before + HeaderBytes(Header(if last then 0 else size, ea.flags, |ea.name|, |ea.value|)) + ea.name + [0] + ea.value
        + Zeros(size - EntrySize(ea))
      == before + EntryBytes(ea, last)
  {
    hide HeaderBytes, Zeros;
  }

  lemma SomeZeros(n: nat)
    requires n <= 3
    ensures [0, 0, 0][0..n] == Zeros(n)
  {
  }

  method WriteEa(buf: Buffer, ea: ExtendedAttribute, last: bool) returns (r: Result<()>)
    modifies buf
    ensures r.Ok? <==> |ea.name| <= 255 && |ea.value| <= 65535
    ensures r.Err? ==> r.error == if |ea.name| > 255 then NameTooLarge else ValueTooLarge
    ensures r.Err? ==> buf.bytes == old(buf.bytes)
    ensures r.Ok? ==> buf.bytes == old(buf.bytes) + EntryBytes(ea, last)
    ensures r.Ok? ==> old(buf.bytes) <= buf.bytes && LaidOut(buf.bytes[|old(buf.bytes)|..], ea, last)
  {
    hide HeaderBytes, Zeros, EntryBytes;
    ghost var before := buf.bytes;
    if |ea.name| % 256 != |ea.name| {
      return Err(NameTooLarge);
    }
    if |ea.value| % 65536 != |ea.value| {
      return Err(ValueTooLarge);
    }
    var entrySize := HEADER_SIZE + |ea.name| + 1 + |ea.value|;
    var withPadding := (entrySize + 3) / 4 * 4;
    var nextOffset := 0;
    if !last {
      nextOffset := withPadding;
    }
    buf.Write(HeaderBytes(Header(nextOffset, ea.flags, |ea.name|, |ea.value|)));
    buf.Write(ea.name);
    buf.Write([0]);
    buf.Write(ea.value);
    buf.Write([0, 0, 0][0..withPadding - entrySize]);
    SomeZeros(withPadding - entrySize);
    EntryWritten(before, ea, last);
    EntryIsLaidOut(ea, last);
    assert buf.bytes[|before|..] == EntryBytes(ea, last);
    return Ok(());
  }

  lemma EncodingStep(eas: seq<ExtendedAttribute>, i: nat)
    requires i < |eas|
    ensures Encoding(eas[i..]) == EntryBytes(eas[i], i == |eas| - 1) + Encoding(eas[i + 1..])
  {
    hide EntryBytes;
    assert eas[i..][1..] == eas[i + 1..];
  }

  /** Fails with the first attribute that does not fit, and only then. */
  method EncodeExtendedAttributes(eas: seq<ExtendedAttribute>) returns (r: Result<Bytes>)
    ensures r.Ok? <==> forall ea :: ea in eas ==> |ea.name| <= 255 && |ea.value| <= 65535
    ensures r.Ok? ==> r.value == Encoding(eas) && AllLaidOut(r.value, eas)
    ensures r.Err? ==> exists i ::
      0 <= i < |eas| && !Fits(eas[i]) && r.error == Misfit(eas[i]) && forall j :: 0 <= j < i ==> Fits(eas[j])
  {
    hide EntryBytes, AllLaidOut, LaidOut;
    var buf := new Buffer();
    for i := 0 to |eas|
      invariant forall j :: 0 <= j < i ==> Fits(eas[j])
      invariant buf.bytes + Encoding(eas[i..]) == Encoding(eas)
    {
      EncodingStep(eas, i);
      var written := WriteEa(buf, eas[i], i == |eas| - 1);
      if written.Err? {
        return Err(written.error);
      }
    }
    EncodingIsLaidOut(eas);
    return Ok(buf.bytes);
  }
}
