/** RED payloads as section 3 of RFC 2198 lays them out: a four-octet header per redundant block,
    a one-octet primary header, then the block data in the same order. */
module RedPayload {
  import opened Collections
  import opened RtpFields
  import Arithmetic

  const MAX_BLOCK_LENGTH := 1023
  const MAX_TIMESTAMP_OFFSET := 16383

  datatype Block = Block(payloadType: Byte, offset: nat, payload: seq<Byte>)

  datatype Parsed = Parsed(redundant: seq<Block>, primaryType: Byte, primary: seq<Byte>)

  datatype Header = Header(payloadType: Byte, offset: nat, length: nat)

  // ------------------------------------------------------------- specification

  /** A redundant block fits its header fields. */
  predicate Fits(b: Block) {
    |b.payload| <= MAX_BLOCK_LENGTH && b.offset <= MAX_TIMESTAMP_OFFSET
  }

  predicate AllFit(blocks: seq<Block>) {
    forall i :: 0 <= i < |blocks| ==> Fits(blocks[i])
  }

  predicate SevenBit(p: Parsed) {
    p.primaryType < 128 && forall i :: 0 <= i < |p.redundant| ==> p.redundant[i].payloadType < 128
  }

  /** A 24-bit number as three octets, the highest first. */
  function Octets(v: nat): (o: seq<Byte>)
    requires v < 0x100_0000
    ensures |o| == 3
  {
    [v / 65536, v / 256 % 256, v % 256]
  }

  /** Three octets as one number. */
  function Packed(a: Byte, b: Byte, c: Byte): (v: nat)
    ensures v < 0x100_0000
  {
    (a as int) * 65536 + (b as int) * 256 + (c as int)
  }

  lemma PackedOctets(v: nat)
    requires v < 0x100_0000
    ensures Packed(Octets(v)[0], Octets(v)[1], Octets(v)[2]) == v
  {
  }

  lemma OctetsPacked(a: Byte, b: Byte, c: Byte)
    ensures Octets(Packed(a, b, c)) == [a, b, c]
  {
    var x, y, z := a as int, b as int, c as int;
    Arithmetic.DivisionIsUnique(x * 65536 + y * 256 + z, x, y * 256 + z, 65536);
    Arithmetic.DivisionIsUnique(x * 65536 + y * 256 + z, x * 256 + y, z, 256);
    Arithmetic.DivisionIsUnique(x * 256 + y, x, y, 256);
  }

  /** Offset and length share 24 bits. */
  function OffsetAndLength(h: Header): (v: nat)
    requires h.offset <= MAX_TIMESTAMP_OFFSET && h.length <= MAX_BLOCK_LENGTH
    ensures v < 0x100_0000 && v / 1024 == h.offset && v % 1024 == h.length
  {
    h.offset * 1024 + h.length
  }

  /** One header: the flag and payload type, then offset and length packed into 24 bits. */
  function HeaderBytes(h: Header): (bytes: seq<Byte>)
    requires h.offset <= MAX_TIMESTAMP_OFFSET && h.length <= MAX_BLOCK_LENGTH
    ensures |bytes| == 4
  {
    [128 + h.payloadType % 128] + Octets(OffsetAndLength(h))
  }

  function HeaderOf(b: Block): Header {
    Header(b.payloadType, b.offset, |b.payload|)
  }

  function Headers(blocks: seq<Block>): seq<Byte>
    requires AllFit(blocks)
  {
    if blocks == [] then [] else HeaderBytes(HeaderOf(blocks[0])) + Headers(blocks[1..])
  }

  function Data(blocks: seq<Block>): seq<Byte> {
    if blocks == [] then [] else blocks[0].payload + Data(blocks[1..])
  }

  function Encoded(p: Parsed): seq<Byte>
    requires AllFit(p.redundant)
  {
    Headers(p.redundant) + [p.primaryType % 128] + (Data(p.redundant) + p.primary)
  }

  function ReadHeader(bytes: seq<Byte>): (h: Header)
    requires |bytes| >= 4 && bytes[0] >= 128
    ensures h.offset <= MAX_TIMESTAMP_OFFSET && h.length <= MAX_BLOCK_LENGTH && h.payloadType < 128
  {
    var v := Packed(bytes[1], bytes[2], bytes[3]);
    Header(bytes[0] - 128, v / 1024, v % 1024)
  }

  /** The headers up to the primary one, the primary type, and the bytes after it. */
  function ReadHeaders(bytes: seq<Byte>): Option<(seq<Header>, Byte, seq<Byte>)> {
    if bytes == [] then None
    else if bytes[0] < 128 then Some(([], bytes[0], bytes[1..]))
    else if |bytes| < 4 then None
    else
      match ReadHeaders(bytes[4..])
      case None => None
      case Some((headers, primary, rest)) => Some(([ReadHeader(bytes)] + headers, primary, rest))
  }

  /** Cuts the block data for these headers off the front. */
  function ReadBlocks(headers: seq<Header>, bytes: seq<Byte>): Option<(seq<Block>, seq<Byte>)> {
    if headers == [] then Some(([], bytes))
    else
      var h := headers[0];
      if h.length > |bytes| then None
      else
        match ReadBlocks(headers[1..], bytes[h.length..])
        case None => None
        case Some((blocks, rest)) => Some(([Block(h.payloadType, h.offset, bytes[..h.length])] + blocks, rest))
  }

  function Decoded(bytes: seq<Byte>): Option<Parsed> {
    match ReadHeaders(bytes)
    case None => None
    case Some((headers, primaryType, rest)) =>
      match ReadBlocks(headers, rest)
      case None => None
      case Some((blocks, primary)) => if primary == [] then None else Some(Parsed(blocks, primaryType, primary))
  }

  // ------------------------------------------------------------------ the wire layout

  lemma PackedIsOffsetAndLength(offset: nat, length: nat, high: nat, low: nat, q: nat, r: nat)
    requires offset == high * 64 + low && low < 64 && length == q * 256 + r && r < 256
    requires offset <= MAX_TIMESTAMP_OFFSET && length <= MAX_BLOCK_LENGTH
    ensures high < 256 && low * 4 + q < 256
    ensures Packed(high, low * 4 + q, r) == offset * 1024 + length
  {
  }

  /** The bits of one header as section 3 of RFC 2198 draws them: a set flag and seven bits of payload
      type, fourteen bits of timestamp offset, ten bits of block length. */
  lemma HeaderLayout(h: Header)
    requires h.offset <= MAX_TIMESTAMP_OFFSET && h.length <= MAX_BLOCK_LENGTH
    ensures HeaderBytes(h)
         == [128 + h.payloadType % 128, h.offset / 64, h.offset % 64 * 4 + h.length / 256, h.length % 256]
  {
    var high, low := h.offset / 64, h.offset % 64;
    var q, r := h.length / 256, h.length % 256;
    PackedIsOffsetAndLength(h.offset, h.length, high, low, q, r);
    OctetsPacked(high, low * 4 + q, r);
  }

  /** The headers stand in front in the order of their blocks, four octets each, then the primary
      header of one octet, then the data. */
  lemma {:induction false} HeadersInOrder(blocks: seq<Block>, i: nat)
    requires AllFit(blocks) && i < |blocks|
    ensures |Headers(blocks)| == 4 * |blocks|
    ensures Headers(blocks)[4 * i..4 * i + 4] == HeaderBytes(HeaderOf(blocks[i]))
  {
    if |blocks| > 1 {
      HeadersInOrder(blocks[1..], if i > 0 then i - 1 else 0);
    }
    if i > 0 {
      assert Headers(blocks)[4 * i..4 * i + 4] == Headers(blocks[1..])[4 * (i - 1)..4 * (i - 1) + 4];
    }
  }

  lemma EncodedLayout(p: Parsed, i: nat)
    requires AllFit(p.redundant)
    ensures var n := |p.redundant|;
      && |Encoded(p)| == 4 * n + 1 + |Data(p.redundant)| + |p.primary|
      && (i < n ==> Encoded(p)[4 * i..4 * i + 4] == HeaderBytes(HeaderOf(p.redundant[i])))
      && Encoded(p)[4 * n] == p.primaryType % 128 && Encoded(p)[4 * n + 1..] == Data(p.redundant) + p.primary
  {
    var n := |p.redundant|;
    if n > 0 {
      HeadersInOrder(p.redundant, if i < n then i else 0);
    }
    if i < n {
      assert Encoded(p)[4 * i..4 * i + 4] == Headers(p.redundant)[4 * i..4 * i + 4];
    }
  }

  // ------------------------------------------------------------------ encode, then parse

  lemma HeaderRoundTrip(h: Header, rest: seq<Byte>)
    requires h.offset <= MAX_TIMESTAMP_OFFSET && h.length <= MAX_BLOCK_LENGTH
    ensures ReadHeader(HeaderBytes(h) + rest) == h.(payloadType := h.payloadType % 128)
  {
    var v := OffsetAndLength(h);
    PackedOctets(v);
    var bytes := HeaderBytes(h) + rest;
    assert bytes[1] == Octets(v)[0] && bytes[2] == Octets(v)[1] && bytes[3] == Octets(v)[2];
  }

  /** What parsing makes of a block: only seven bits of its payload type survive. */
  function Masked(b: Block): Block {
    b.(payloadType := b.payloadType % 128)
  }

  function MaskedAll(blocks: seq<Block>): (masked: seq<Block>)
    ensures |masked| == |blocks| && forall i :: 0 <= i < |blocks| ==> masked[i] == Masked(blocks[i])
  {
    if blocks == [] then [] else [Masked(blocks[0])] + MaskedAll(blocks[1..])
  }

  function HeadersOf(blocks: seq<Block>): (headers: seq<Header>)
    ensures |headers| == |blocks|
  {
    if blocks == [] then [] else [HeaderOf(blocks[0])] + HeadersOf(blocks[1..])
  }

  lemma {:induction false} ReadWrittenHeaders(blocks: seq<Block>, primaryType: Byte, rest: seq<Byte>)
    requires AllFit(blocks) && primaryType < 128
    ensures ReadHeaders(Headers(blocks) + [primaryType] + rest) == Some((HeadersOf(MaskedAll(blocks)), primaryType, rest))
  {
    var bytes := Headers(blocks) + [primaryType] + rest;
    if blocks == [] {
      assert bytes == [primaryType] + rest;
      assert bytes[1..] == rest;
    } else {
      var first, tail := HeaderBytes(HeaderOf(blocks[0])), Headers(blocks[1..]) + [primaryType] + rest;
      assert bytes == first + tail;
      HeaderRoundTrip(HeaderOf(blocks[0]), tail);
      assert bytes[4..] == tail;
      ReadWrittenHeaders(blocks[1..], primaryType, rest);
    }
  }

  lemma {:induction false} ReadWrittenBlocks(blocks: seq<Block>, rest: seq<Byte>)
    ensures ReadBlocks(HeadersOf(blocks), Data(blocks) + rest) == Some((blocks, rest))
  {
    if blocks == [] {
      assert Data(blocks) + rest == rest;
    } else {
      var b, tail := blocks[0], Data(blocks[1..]) + rest;
      assert Data(blocks) + rest == b.payload + tail;
      assert (b.payload + tail)[..|b.payload|] == b.payload && (b.payload + tail)[|b.payload|..] == tail;
      assert HeadersOf(blocks)[1..] == HeadersOf(blocks[1..]);
      ReadWrittenBlocks(blocks[1..], rest);
      assert [b] + blocks[1..] == blocks;
    }
  }

  lemma {:induction false} MaskingKeepsData(blocks: seq<Block>)
    ensures Data(MaskedAll(blocks)) == Data(blocks)
  {
    if blocks != [] {
      assert MaskedAll(blocks)[1..] == MaskedAll(blocks[1..]);
      MaskingKeepsData(blocks[1..]);
    }
  }

  lemma ParsesToMasked(p: Parsed)
    requires AllFit(p.redundant) && p.primary != []
    ensures Decoded(Encoded(p)) == Some(Parsed(MaskedAll(p.redundant), p.primaryType % 128, p.primary))
  {
    ReadWrittenHeaders(p.redundant, p.primaryType % 128, Data(p.redundant) + p.primary);
    MaskingKeepsData(p.redundant);
    ReadWrittenBlocks(MaskedAll(p.redundant), p.primary);
  }

  /** Parsing an encoding gives back exactly what was encoded if and only if all payload types
      have seven bits. */
  lemma ParseOfEncode(p: Parsed)
    requires AllFit(p.redundant) && p.primary != []
    ensures Decoded(Encoded(p)) == Some(p) <==> SevenBit(p)
  {
    ParsesToMasked(p);
    MaskedIsSame(p);
  }

  lemma MaskedIsSame(p: Parsed)
    ensures Parsed(MaskedAll(p.redundant), p.primaryType % 128, p.primary) == p <==> SevenBit(p)
  {
    MaskingIsIdentity(p.redundant);
  }

  lemma MaskedSame(b: Block)
    ensures Masked(b) == b <==> b.payloadType < 128
  {
  }

  lemma MaskingIsIdentity(blocks: seq<Block>)
    ensures MaskedAll(blocks) == blocks <==> forall i :: 0 <= i < |blocks| ==> blocks[i].payloadType < 128
  {
    var masked := MaskedAll(blocks);
    forall i | 0 <= i < |blocks|
      ensures masked[i] == blocks[i] <==> blocks[i].payloadType < 128
    {
      MaskedSame(blocks[i]);
    }
  }

  // ------------------------------------------------------------------ parse, then encode

  lemma HeaderFromParts(first: Byte, offset: nat, length: nat, v: nat)
    requires first >= 128 && offset <= MAX_TIMESTAMP_OFFSET && length <= MAX_BLOCK_LENGTH && v == offset * 1024 + length
    ensures v < 0x100_0000 && HeaderBytes(Header(first - 128, offset, length)) == [first] + Octets(v)
  {
    Arithmetic.DivisionIsUnique(first - 128, 0, first - 128, 128);
  }

  lemma HeaderBytesAreUnique(bytes: seq<Byte>)
    requires |bytes| >= 4 && bytes[0] >= 128
    ensures HeaderBytes(ReadHeader(bytes)) == bytes[..4]
  {
    var v := Packed(bytes[1], bytes[2], bytes[3]);
    OctetsPacked(bytes[1], bytes[2], bytes[3]);
    HeaderFromParts(bytes[0], v / 1024, v % 1024, v);
    assert bytes[..4] == [bytes[0]] + [bytes[1], bytes[2], bytes[3]];
  }

  lemma BlocksMatchMore(h: Header, headers: seq<Header>, bytes: seq<Byte>, blocks: seq<Block>, rest: seq<Byte>)
    requires h.length <= |bytes| && HeadersOf(blocks) == headers && bytes[h.length..] == Data(blocks) + rest
    ensures var all := [Block(h.payloadType, h.offset, bytes[..h.length])] + blocks;
      HeadersOf(all) == [h] + headers && bytes == Data(all) + rest
  {
    var b := Block(h.payloadType, h.offset, bytes[..h.length]);
    assert ([b] + blocks)[1..] == blocks;
    assert bytes == bytes[..h.length] + bytes[h.length..];
  }

  lemma {:induction false} BlocksMatch(headers: seq<Header>, bytes: seq<Byte>)
    requires ReadBlocks(headers, bytes).Some?
    ensures var (blocks, rest) := ReadBlocks(headers, bytes).value;
      HeadersOf(blocks) == headers && bytes == Data(blocks) + rest
  {
    if headers == [] {
      assert bytes == Data([]) + bytes;
    } else {
      var h := headers[0];
      var (blocks, rest) := ReadBlocks(headers[1..], bytes[h.length..]).value;
      BlocksMatch(headers[1..], bytes[h.length..]);
      BlocksMatchMore(h, headers[1..], bytes, blocks, rest);
      assert [h] + headers[1..] == headers;
    }
  }

  predicate HeadersFit(headers: seq<Header>) {
    forall i :: 0 <= i < |headers| ==>
      headers[i].offset <= MAX_TIMESTAMP_OFFSET && headers[i].length <= MAX_BLOCK_LENGTH && headers[i].payloadType < 128
  }

  function HeadersBytes(headers: seq<Header>): seq<Byte>
    requires HeadersFit(headers)
  {
    if headers == [] then [] else HeaderBytes(headers[0]) + HeadersBytes(headers[1..])
  }

  lemma {:induction false} HeadersMatch(bytes: seq<Byte>)
    requires ReadHeaders(bytes).Some?
    ensures var (headers, primary, rest) := ReadHeaders(bytes).value;
      HeadersFit(headers) && primary < 128 && bytes == HeadersBytes(headers) + [primary] + rest
  {
    if bytes[0] < 128 {
      assert bytes == [bytes[0]] + bytes[1..];
    } else {
      HeadersMatch(bytes[4..]);
      HeaderBytesAreUnique(bytes);
      var (headers, primary, rest) := ReadHeaders(bytes[4..]).value;
      var all := [ReadHeader(bytes)] + headers;
      assert all[1..] == headers;
      assert bytes == bytes[..4] + bytes[4..];
      assert HeadersBytes(all) == bytes[..4] + HeadersBytes(headers);
    }
  }

  lemma {:induction false} SameHeaders(blocks: seq<Block>)
    requires HeadersFit(HeadersOf(blocks))
    ensures AllFit(blocks) && Headers(blocks) == HeadersBytes(HeadersOf(blocks))
    ensures forall i :: 0 <= i < |blocks| ==> blocks[i].payloadType < 128
  {
    if blocks != [] {
      var headers := HeadersOf(blocks);
      assert headers[0] == HeaderOf(blocks[0]) && headers[1..] == HeadersOf(blocks[1..]);
      SameHeaders(blocks[1..]);
      assert blocks == [blocks[0]] + blocks[1..];
    }
  }

  lemma Reassembled(p: Parsed, headers: seq<Header>, rest: seq<Byte>)
    requires HeadersFit(headers) && HeadersOf(p.redundant) == headers && p.primaryType < 128
    requires rest == Data(p.redundant) + p.primary
    ensures AllFit(p.redundant) && SevenBit(p) && Encoded(p) == HeadersBytes(headers) + [p.primaryType] + rest
  {
    SameHeaders(p.redundant);
    Arithmetic.DivisionIsUnique(p.primaryType, 0, p.primaryType, 128);
    assert Headers(p.redundant) == HeadersBytes(headers);
  }

  /** Encoding what was parsed gives the same bytes back, and only well-formed payloads parse. */
  lemma EncodeOfParse(bytes: seq<Byte>)
    requires Decoded(bytes).Some?
    ensures var p := Decoded(bytes).value;
      AllFit(p.redundant) && SevenBit(p) && p.primary != [] && Encoded(p) == bytes
  {
    var (headers, primaryType, rest) := ReadHeaders(bytes).value;
    var (blocks, primary) := ReadBlocks(headers, rest).value;
    HeadersMatch(bytes);
    BlocksMatch(headers, rest);
    Reassembled(Parsed(blocks, primaryType, primary), headers, rest);
  }

  // --------------------------------------------------------- the imperative form

  method Encode(primaryType: Byte, primary: seq<Byte>, redundant: seq<Block>) returns (out: Option<seq<Byte>>)
    ensures out.None? <==> primary == [] || !AllFit(redundant)
    ensures out.Some? ==> out.value == Encoded(Parsed(redundant, primaryType, primary))
  {
    if |primary| == 0 {
      return None;
    }
    for i := 0 to |redundant|
      invariant AllFit(redundant[..i])
    {
      if |redundant[i].payload| > MAX_BLOCK_LENGTH || redundant[i].offset > MAX_TIMESTAMP_OFFSET {
        return None;
      }
    }
    var headers := AppendHeaders(redundant);
    var data := AppendData(redundant);
    return Some(headers + [primaryType % 128] + (data + primary));
  }

  method AppendHeaders(redundant: seq<Block>) returns (out: seq<Byte>)
    requires AllFit(redundant)
    ensures out == Headers(redundant)
  {
    out := [];
    for i := 0 to |redundant|
      invariant out + Headers(redundant[i..]) == Headers(redundant)
    {
      var b := redundant[i];
      var v := OffsetAndLength(Header(b.payloadType, b.offset, |b.payload|));
      assert redundant[i..][1..] == redundant[i + 1..];
      var header := [128 + b.payloadType % 128] + Octets(v);
      assert header == HeaderBytes(HeaderOf(b));
      assert out + (header + Headers(redundant[i + 1..])) == out + header + Headers(redundant[i + 1..]);
      out := out + header;
    }
  }

  method AppendData(redundant: seq<Block>) returns (out: seq<Byte>)
    ensures out == Data(redundant)
  {
    out := [];
    for i := 0 to |redundant|
      invariant out + Data(redundant[i..]) == Data(redundant)
    {
      assert redundant[i..][1..] == redundant[i + 1..];
      out := out + redundant[i].payload;
    }
  }

  /** Reading the whole is reading these headers and then the rest. */
  predicate Continues(whole: Option<(seq<Header>, Byte, seq<Byte>)>, headers: seq<Header>,
                      rest: Option<(seq<Header>, Byte, seq<Byte>)>) {
    match rest
    case None => whole == None
    case Some((more, primary, bytes)) => whole == Some((headers + more, primary, bytes))
  }

  lemma ContinuesAtStart(whole: Option<(seq<Header>, Byte, seq<Byte>)>)
    ensures Continues(whole, [], whole)
  {
    if whole.Some? {
      assert [] + whole.value.0 == whole.value.0;
    }
  }

  lemma ContinuesAfter(whole: Option<(seq<Header>, Byte, seq<Byte>)>, headers: seq<Header>, bytes: seq<Byte>)
    requires Continues(whole, headers, ReadHeaders(bytes)) && |bytes| >= 4 && bytes[0] >= 128
    ensures Continues(whole, headers + [ReadHeader(bytes)], ReadHeaders(bytes[4..]))
  {
    var rest := ReadHeaders(bytes[4..]);
    if rest.Some? {
      var (more, primary, tail) := rest.value;
      assert headers + ([ReadHeader(bytes)] + more) == headers + [ReadHeader(bytes)] + more;
    }
  }

  method Parse(payload: seq<Byte>) returns (p: Option<Parsed>)
    ensures p == Decoded(payload)
  {
    var pos: nat := 0;
    var headers: seq<Header> := [];
    assert payload[0..] == payload;
    ContinuesAtStart(ReadHeaders(payload));
    while pos < |payload| && payload[pos] >= 128
      invariant pos <= |payload| && Continues(ReadHeaders(payload), headers, ReadHeaders(payload[pos..]))
      decreases |payload| - pos
    {
      if pos + 4 > |payload| {
        return None;
      }
      ContinuesAfter(ReadHeaders(payload), headers, payload[pos..]);
      assert payload[pos..][4..] == payload[pos + 4..];
      var v := Packed(payload[pos + 1], payload[pos + 2], payload[pos + 3]);
      headers := headers + [Header(payload[pos] - 128, v / 1024, v % 1024)];
      pos := pos + 4;
    }
    if pos >= |payload| {
      return None;
    }
    assert payload[pos..][1..] == payload[pos + 1..] && headers + [] == headers;
    p := CutBlocks(payload, pos + 1, headers, payload[pos]);
  }

  /** Reading all blocks is these blocks and then the rest. */
  predicate BlocksContinue(whole: Option<(seq<Block>, seq<Byte>)>, blocks: seq<Block>, rest: Option<(seq<Block>, seq<Byte>)>) {
    match rest
    case None => whole == None
    case Some((more, bytes)) => whole == Some((blocks + more, bytes))
  }

  lemma BlocksContinueAtStart(whole: Option<(seq<Block>, seq<Byte>)>)
    ensures BlocksContinue(whole, [], whole)
  {
    if whole.Some? {
      assert [] + whole.value.0 == whole.value.0;
    }
  }

  lemma BlocksContinueAfter(whole: Option<(seq<Block>, seq<Byte>)>, blocks: seq<Block>, headers: seq<Header>, bytes: seq<Byte>)
    requires headers != [] && headers[0].length <= |bytes| && BlocksContinue(whole, blocks, ReadBlocks(headers, bytes))
    ensures var h := headers[0];
      BlocksContinue(whole, blocks + [Block(h.payloadType, h.offset, bytes[..h.length])], ReadBlocks(headers[1..], bytes[h.length..]))
  {
    var h := headers[0];
    var b := Block(h.payloadType, h.offset, bytes[..h.length]);
    var rest := ReadBlocks(headers[1..], bytes[h.length..]);
    if rest.Some? {
      assert blocks + ([b] + rest.value.0) == blocks + [b] + rest.value.0;
    }
  }

  method CutBlocks(payload: seq<Byte>, start: nat, headers: seq<Header>, primaryType: Byte) returns (p: Option<Parsed>)
    requires start <= |payload| && ReadHeaders(payload) == Some((headers, primaryType, payload[start..]))
    ensures p == Decoded(payload)
  {
    var pos: nat := start;
    var redundant: seq<Block> := [];
    ghost var whole := ReadBlocks(headers, payload[start..]);
    assert headers[0..] == headers;
    BlocksContinueAtStart(whole);
    for i := 0 to |headers|
      invariant pos <= |payload| && BlocksContinue(whole, redundant, ReadBlocks(headers[i..], payload[pos..]))
    {
      var h := headers[i];
      if pos + h.length > |payload| {
        return None;
      }
      BlocksContinueAfter(whole, redundant, headers[i..], payload[pos..]);
      assert headers[i..][1..] == headers[i + 1..];
      assert payload[pos..][..h.length] == payload[pos..pos + h.length];
      assert payload[pos..][h.length..] == payload[pos + h.length..];
      redundant := redundant + [Block(h.payloadType, h.offset, payload[pos..pos + h.length])];
      pos := pos + h.length;
    }
    assert headers[|headers|..] == [] && redundant + [] == redundant;
    var primary := payload[pos..];
    return if |primary| == 0 then None else Some(Parsed(redundant, primaryType, primary));
  }
}
