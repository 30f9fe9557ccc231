/** Sparse image regions: the encoder, a decoder of the format, and the loop that streams a whole image. */
module SparseImage {
  import opened Bits
  import opened Wrappers

  const BLOCK := 4096
  const RAW := 0xCAC1
  const FILL := 0xCAC2
  const SKIP := 0xCAC3
  const MAGIC := 0xED26_FF3A
  const HEADER := 28
  const CHUNK_HEADER := 12

  datatype Chunk = Chunk(kind: int, blocks: int, body: seq<byte>)
  datatype EncodeError = InvalidRegion | ExceedsImage | OutOfRange

  // ---------- little-endian fields ----------

  function Le16(x: int): (s: seq<byte>)
    requires 0 <= x < 0x1_0000
    ensures |s| == 2
  {
    [x % 256, x / 256]
  }

  function Le32(x: int): (s: seq<byte>)
    requires 0 <= x < 0x1_0000_0000
    ensures |s| == 4
  {
    Le16(x % 0x1_0000) + Le16(x / 0x1_0000)
  }

  function Read16(s: seq<byte>, i: nat): (x: int)
    requires i + 2 <= |s|
  {
    (s[i] as int) + 256 * (s[i + 1] as int)
  }

  function Read32(s: seq<byte>, i: nat): (x: int)
    requires i + 4 <= |s|
  {
    Read16(s, i) + 0x1_0000 * Read16(s, i + 2)
  }

  lemma ReadLe16(s: seq<byte>, i: nat, x: int)
    requires 0 <= x < 0x1_0000 && i + 2 <= |s| && s[i..i + 2] == Le16(x)
    ensures Read16(s, i) == x
  {
    assert s[i] == s[i..i + 2][0] && s[i + 1] == s[i..i + 2][1];
  }

  lemma ReadLe32(s: seq<byte>, i: nat, x: int)
    requires 0 <= x < 0x1_0000_0000 && i + 4 <= |s| && s[i..i + 4] == Le32(x)
    ensures Read32(s, i) == x
  {
    var low, high := x % 0x1_0000, x / 0x1_0000;
    assert s[i..i + 2] == s[i..i + 4][..2] == Le16(low);
    assert s[i + 2..i + 4] == s[i..i + 4][2..] == Le16(high);
    ReadLe16(s, i, low);
    ReadLe16(s, i + 2, high);
  }

  // ---------- what a sparse file means ----------

  /** Content a chunk leaves on its blocks: new bytes, a repeated 4-byte pattern, or what was there. */
  function Content(c: Chunk, was: seq<byte>): (s: seq<byte>)
    requires ValidChunk(c) && |was| == c.blocks * BLOCK
    ensures |s| == |was|
  {
    if c.kind == RAW then c.body
    else if c.kind == FILL then seq(|was|, k requires 0 <= k < |was| => c.body[k % 4])
    else was
  }

  /** The format's size rules for one chunk. */
  predicate ValidChunk(c: Chunk) {
    && c.blocks >= 0
    && ( || (c.kind == RAW && |c.body| == c.blocks * BLOCK)
         || (c.kind == FILL && |c.body| == 4)
         || (c.kind == SKIP && |c.body| == 0))
  }

  function Put(c: Chunk, partition: seq<byte>, at: int): (p: seq<byte>)
    requires ValidChunk(c) && 0 <= at && (at + c.blocks) * BLOCK <= |partition|
    ensures |p| == |partition|
  {
    var lo, hi := at * BLOCK, (at + c.blocks) * BLOCK;
    partition[..lo] + Content(c, partition[lo..hi]) + partition[hi..]
  }

  /** The first chunk of a byte stream and what follows it. */
  function ParseChunk(s: seq<byte>): (r: Option<(Chunk, seq<byte>)>)
    ensures r.Some? ==> |r.value.1| < |s|
  {
    if |s| < CHUNK_HEADER then None
    else
      var size := Read32(s, 8);
      if Read16(s, 2) != 0 || size < CHUNK_HEADER || size > |s| then None
      else Some((Chunk(Read16(s, 0), Read32(s, 4), s[CHUNK_HEADER..size]), s[size..]))
  }

  /** Reads and applies n chunks; nothing may be left over, and the blocks must fill the image. */
  function FlashChunks(s: seq<byte>, n: nat, partition: seq<byte>, at: nat): (p: Option<seq<byte>>) {
    if n == 0 then if s == [] && at * BLOCK == |partition| then Some(partition) else None
    else match ParseChunk(s)
      case None => None
      case Some((c, rest)) =>
        if !ValidChunk(c) || (at + c.blocks) * BLOCK > |partition| then None
        else FlashChunks(rest, n - 1, Put(c, partition, at), at + c.blocks)
  }

  /** What flashing a sparse file does to a partition, or nothing when the file is malformed. */
  function Flash(s: seq<byte>, partition: seq<byte>): (p: Option<seq<byte>>) {
    if |s| < HEADER then None
    else if Read32(s, 0) != MAGIC || Read16(s, 4) != 1 || Read16(s, 6) != 0 then None
    else if Read16(s, 8) != HEADER || Read16(s, 10) != CHUNK_HEADER || Read32(s, 12) != BLOCK then None
    else if Read32(s, 16) * BLOCK != |partition| then None
    else FlashChunks(s[HEADER..], Read32(s, 20), partition, 0)
  }

  // ---------- writing the bytes of a chunk list ----------

  predicate Packable(c: Chunk) {
    0 <= c.kind < 0x1_0000 && 0 <= c.blocks <= U32_MAX && CHUNK_HEADER + |c.body| <= U32_MAX
  }

  function PackedChunk(c: Chunk): (s: seq<byte>)
    requires Packable(c)
    ensures |s| == CHUNK_HEADER + |c.body|
  {
    Le16(c.kind) + Le16(0) + Le32(c.blocks) + Le32(CHUNK_HEADER + |c.body|) + c.body
  }

  function Packed(chunks: seq<Chunk>): (s: seq<byte>)
    requires forall c :: c in chunks ==> Packable(c)
  {
    if chunks == [] then [] else PackedChunk(chunks[0]) + Packed(chunks[1..])
  }

  function PackedHeader(total: int, count: int): (s: seq<byte>)
    requires 0 <= total <= U32_MAX && 0 <= count <= U32_MAX
    ensures |s| == HEADER
  {
    Le32(MAGIC) + Le16(1) + Le16(0) + Le16(HEADER) + Le16(CHUNK_HEADER)
    + Le32(BLOCK) + Le32(total) + Le32(count) + Le32(0)
  }

  lemma {:induction false} PackedAppend(chunks: seq<Chunk>, c: Chunk)
    requires forall d :: d in chunks + [c] ==> Packable(d)
    ensures Packed(chunks + [c]) == Packed(chunks) + PackedChunk(c)
  {
    hide PackedChunk, Packable;
    if chunks == [] {
      assert [c][1..] == [] && chunks + [c] == [c];
    } else {
      assert (chunks + [c])[0] == chunks[0];
      PackedAppend(chunks[1..], c);
      assert (chunks + [c])[1..] == chunks[1..] + [c];
    }
  }

  // ---------- effect of a chunk list ----------

  function Blocks(chunks: seq<Chunk>): (n: int) {
    if chunks == [] then 0 else chunks[0].blocks + Blocks(chunks[1..])
  }

  predicate Fits(chunks: seq<Chunk>, room: int) {
    (forall c :: c in chunks ==> ValidChunk(c)) && Blocks(chunks) * BLOCK <= room
  }

  lemma {:induction false} BlocksNonNegative(chunks: seq<Chunk>)
    requires forall c :: c in chunks ==> ValidChunk(c)
    ensures Blocks(chunks) >= 0
  {
    if chunks != [] {
      assert ValidChunk(chunks[0]);
      BlocksNonNegative(chunks[1..]);
    }
  }

  function Effect(chunks: seq<Chunk>, partition: seq<byte>, at: int): (p: seq<byte>)
    requires 0 <= at && Fits(chunks, |partition| - at * BLOCK)
    ensures |p| == |partition|
    decreases |chunks|
  {
    if chunks == [] then partition
    else
      BlocksNonNegative(chunks[1..]);
      Effect(chunks[1..], Put(chunks[0], partition, at), at + chunks[0].blocks)
  }

  lemma ReadChunkHeader(c: Chunk, rest: seq<byte>)
    requires Packable(c)
    ensures var s := PackedChunk(c) + rest;
            && Read16(s, 0) == c.kind && Read16(s, 2) == 0 && Read32(s, 4) == c.blocks
            && Read32(s, 8) == CHUNK_HEADER + |c.body|
            && s[CHUNK_HEADER..CHUNK_HEADER + |c.body|] == c.body && s[CHUNK_HEADER + |c.body|..] == rest
  {
    var s := PackedChunk(c) + rest;
    hide Le16, Le32, Read16, Read32;
    assert s[0..2] == Le16(c.kind) && s[2..4] == Le16(0);
    assert s[4..8] == Le32(c.blocks);
    assert s[8..12] == Le32(CHUNK_HEADER + |c.body|);
    ReadLe16(s, 0, c.kind); ReadLe16(s, 2, 0);
    ReadLe32(s, 4, c.blocks); ReadLe32(s, 8, CHUNK_HEADER + |c.body|);
  }

  /** Parsing undoes packing. */
  lemma ParsePacked(c: Chunk, rest: seq<byte>)
    requires Packable(c)
    ensures ParseChunk(PackedChunk(c) + rest) == Some((c, rest))
  {
    ReadChunkHeader(c, rest);
    hide Read16, Read32, PackedChunk;
  }

  /** Decoding packed chunks applies exactly those chunks. */
  lemma {:induction false} FlashPacked(chunks: seq<Chunk>, partition: seq<byte>, at: nat)
    requires forall c :: c in chunks ==> Packable(c)
    requires Fits(chunks, |partition| - at * BLOCK) && (at + Blocks(chunks)) * BLOCK == |partition|
    ensures FlashChunks(Packed(chunks), |chunks|, partition, at) == Some(Effect(chunks, partition, at))
    decreases |chunks|
  {
    hide PackedChunk, Put, ValidChunk, Packable;
    if chunks != [] {
      var c, rest := chunks[0], chunks[1..];
      assert ValidChunk(c) && Packable(c);
      BlocksNonNegative(rest);
      ValidChunkBlocks(c);
      ParsePacked(c, Packed(rest));
      hide ParseChunk;
      FlashPacked(rest, Put(c, partition, at), at + c.blocks);
    }
  }

  lemma ValidChunkBlocks(c: Chunk)
    requires ValidChunk(c)
    ensures c.blocks >= 0
  {
  }

  lemma ReadHeader(total: int, count: int, rest: seq<byte>)
    requires 0 <= total <= U32_MAX && 0 <= count <= U32_MAX
    ensures var s := PackedHeader(total, count) + rest;
            && Read32(s, 0) == MAGIC && Read16(s, 4) == 1 && Read16(s, 6) == 0 && Read16(s, 8) == HEADER
            && Read16(s, 10) == CHUNK_HEADER && Read32(s, 12) == BLOCK
            && Read32(s, 16) == total && Read32(s, 20) == count && s[HEADER..] == rest
  {
    var s := PackedHeader(total, count) + rest;
    hide Le16, Le32, Read16, Read32;
    assert s[0..4] == Le32(MAGIC) && s[4..6] == Le16(1) && s[6..8] == Le16(0);
    assert s[8..10] == Le16(HEADER) && s[10..12] == Le16(CHUNK_HEADER);
    assert s[12..16] == Le32(BLOCK) && s[16..20] == Le32(total) && s[20..24] == Le32(count);
    ReadLe32(s, 0, MAGIC); ReadLe16(s, 4, 1); ReadLe16(s, 6, 0);
    ReadLe16(s, 8, HEADER); ReadLe16(s, 10, CHUNK_HEADER);
    ReadLe32(s, 12, BLOCK); ReadLe32(s, 16, total); ReadLe32(s, 20, count);
  }

  function Encoded(total: int, chunks: seq<Chunk>): (s: seq<byte>)
    requires 0 <= total <= U32_MAX && |chunks| <= U32_MAX
    requires forall c :: c in chunks ==> Packable(c)
  {
    PackedHeader(total, |chunks|) + Packed(chunks)
  }

  /** A file packed from chunks that fill the image flashes to their effect. */
  lemma FlashEncoded(total: int, chunks: seq<Chunk>, partition: seq<byte>)
    requires 0 <= total <= U32_MAX && |chunks| <= U32_MAX && |partition| == total * BLOCK
    requires forall c :: c in chunks ==> Packable(c) && ValidChunk(c)
    requires Blocks(chunks) == total
    ensures Flash(Encoded(total, chunks), partition) == Some(Effect(chunks, partition, 0))
  {
    ReadHeader(total, |chunks|, Packed(chunks));
    FlashPacked(chunks, partition, 0);
    hide Read16, Read32, PackedHeader;
  }

  // ---------- the encoder ----------

  lemma {:induction false} BlocksAppend(chunks: seq<Chunk>, c: Chunk)
    ensures Blocks(chunks + [c]) == Blocks(chunks) + c.blocks
  {
    if chunks == [] {
      assert [c][1..] == [];
    } else {
      BlocksAppend(chunks[1..], c);
      assert (chunks + [c])[1..] == chunks[1..] + [c];
    }
  }

  lemma {:induction false} EffectAppend(chunks: seq<Chunk>, c: Chunk, partition: seq<byte>, at: nat)
    requires (forall d :: d in chunks ==> ValidChunk(d)) && ValidChunk(c)
    requires (at + Blocks(chunks) + c.blocks) * BLOCK <= |partition|
    ensures Fits(chunks, |partition| - at * BLOCK) && Fits(chunks + [c], |partition| - at * BLOCK)
    ensures Blocks(chunks) >= 0
    ensures Effect(chunks + [c], partition, at) == Put(c, Effect(chunks, partition, at), at + Blocks(chunks))
    decreases |chunks|
  {
    hide Put, ValidChunk;
    BlocksAppend(chunks, c);
    BlocksNonNegative(chunks);
    ValidChunkBlocks(c);
    if chunks == [] {
      assert [c][1..] == [] && chunks + [c] == [c];
    } else {
      var first, rest := chunks[0], chunks[1..];
      ValidChunkBlocks(first);
      BlocksNonNegative(rest);
      assert (chunks + [c])[1..] == rest + [c] && (chunks + [c])[0] == first;
      EffectAppend(rest, c, Put(first, partition, at), at + first.blocks);
    }
  }

  function Overlaid(p: seq<byte>, from: int, written: seq<byte>): (r: seq<byte>)
    requires 0 <= from && from + |written| <= |p|
  {
    p[..from] + written + p[from + |written|..]
  }

  /** Over any partition of the size, the chunk list replaces the bytes from block lead on by `written`. */
  ghost predicate Overlays(chunks: seq<Chunk>, lead: int, written: seq<byte>, total: int) {
    && lead >= 0 && (forall c :: c in chunks ==> ValidChunk(c))
    && lead * BLOCK + |written| <= Blocks(chunks) * BLOCK && Blocks(chunks) <= total
    && forall p: seq<byte> :: |p| == total * BLOCK ==> Effect(chunks, p, 0) == Overlaid(p, lead * BLOCK, written)
  }

  /** The list overlays and ends exactly behind the written bytes. */
  ghost predicate Writes(chunks: seq<Chunk>, lead: int, written: seq<byte>, total: int) {
    && Overlays(chunks, lead, written, total)
    && |written| % BLOCK == 0 && lead * BLOCK + |written| == Blocks(chunks) * BLOCK
  }

  function BodySize(chunks: seq<Chunk>): (n: int) {
    if chunks == [] then 0 else |chunks[0].body| + BodySize(chunks[1..])
  }

  lemma {:induction false} BodySizeAppend(chunks: seq<Chunk>, c: Chunk)
    ensures BodySize(chunks + [c]) == BodySize(chunks) + |c.body|
  {
    if chunks == [] {
      assert [c][1..] == [];
    } else {
      BodySizeAppend(chunks[1..], c);
      assert (chunks + [c])[1..] == chunks[1..] + [c];
    }
  }

  lemma {:induction false} PackedSize(chunks: seq<Chunk>)
    requires forall c :: c in chunks ==> Packable(c)
    ensures |Packed(chunks)| == CHUNK_HEADER * |chunks| + BodySize(chunks)
  {
    if chunks != [] { PackedSize(chunks[1..]); }
  }

  /** The chunk leaves exactly these bytes, whatever was on its blocks. */
  ghost predicate Leaves(c: Chunk, more: seq<byte>)
    requires ValidChunk(c) && |more| == c.blocks * BLOCK
  {
    forall was: seq<byte> :: |was| == |more| ==> Content(c, was) == more
  }

  /** Appending a chunk whose content is the next stretch of data. */
  lemma {:induction false} WritesMore(chunks: seq<Chunk>, lead: int, written: seq<byte>, total: int, c: Chunk,
      more: seq<byte>)
    requires Writes(chunks, lead, written, total) && ValidChunk(c)
    requires |more| == c.blocks * BLOCK && Blocks(chunks) + c.blocks <= total
    requires Leaves(c, more)
    ensures Writes(chunks + [c], lead, written + more, total)
  {
    hide Effect, Leaves, ValidChunk, Blocks, Put, Overlaid;
    ValidChunkBlocks(c);
    BlocksAppend(chunks, c);
    BlocksNonNegative(chunks);
    forall p: seq<byte> | |p| == total * BLOCK
      ensures Effect(chunks + [c], p, 0) == Overlaid(p, lead * BLOCK, written + more)
    {
      EffectAppend(chunks, c, p, 0);
      PutAfter(c, p, lead, written, more);
    }
  }

  lemma PutAfter(c: Chunk, p: seq<byte>, lead: int, written: seq<byte>, more: seq<byte>)
    requires ValidChunk(c) && lead >= 0 && |written| % BLOCK == 0 && |more| == c.blocks * BLOCK
    requires lead * BLOCK + |written| + |more| <= |p|
    requires Leaves(c, more)
    ensures Put(c, Overlaid(p, lead * BLOCK, written), lead + |written| / BLOCK)
      == Overlaid(p, lead * BLOCK, written + more)
  {
    hide Content, ValidChunk;
    var before := Overlaid(p, lead * BLOCK, written);
    var lo := lead * BLOCK + |written|;
    var hi := lo + |more|;
    assert before[..lo] == p[..lead * BLOCK] + written;
    assert before[hi..] == p[hi..];
  }

  /** A SKIP chunk after the data changes nothing. */
  lemma {:induction false} SkipAfter(chunks: seq<Chunk>, lead: int, written: seq<byte>, total: int, c: Chunk)
    requires Overlays(chunks, lead, written, total) && ValidChunk(c) && c.kind == SKIP
    requires Blocks(chunks) + c.blocks <= total
    ensures Overlays(chunks + [c], lead, written, total)
    ensures Blocks(chunks + [c]) == Blocks(chunks) + c.blocks
  {
    hide Effect, ValidChunk, Blocks, Put, Overlaid;
    ValidChunkBlocks(c);
    BlocksAppend(chunks, c);
    BlocksNonNegative(chunks);
    forall p: seq<byte> | |p| == total * BLOCK
      ensures Effect(chunks + [c], p, 0) == Overlaid(p, lead * BLOCK, written)
    {
      EffectAppend(chunks, c, p, 0);
      PutSkip(c, Effect(chunks, p, 0), Blocks(chunks));
    }
  }

  lemma PutSkip(c: Chunk, p: seq<byte>, at: int)
    requires ValidChunk(c) && c.kind == SKIP && 0 <= at && (at + c.blocks) * BLOCK <= |p|
    ensures Put(c, p, at) == p
  {
  }

  function ZeroBlock(): (z: seq<byte>) { seq(BLOCK, _ => 0) }

  function BlockAt(data: seq<byte>, b: int): (s: seq<byte>)
    requires 0 <= b && (b + 1) * BLOCK <= |data|
  {
    data[b * BLOCK..(b + 1) * BLOCK]
  }

  predicate ZeroAt(data: seq<byte>, b: int)
    requires 0 <= b && (b + 1) * BLOCK <= |data|
  {
    BlockAt(data, b) == ZeroBlock()
  }

  /** A run of zero blocks is what FILL with four zero bytes leaves. */
  lemma ZeroRun(data: seq<byte>, begin: int, end: int)
    requires 0 <= begin <= end && end * BLOCK <= |data|
    requires forall b :: begin <= b < end ==> ZeroAt(data, b)
    ensures ValidChunk(Chunk(FILL, end - begin, [0, 0, 0, 0]))
    ensures Leaves(Chunk(FILL, end - begin, [0, 0, 0, 0]), data[begin * BLOCK..end * BLOCK])
  {
    var c := Chunk(FILL, end - begin, [0, 0, 0, 0]);
    forall was: seq<byte> | |was| == (end - begin) * BLOCK
      ensures Content(c, was) == data[begin * BLOCK..end * BLOCK]
    {
      forall k | 0 <= k < |was| ensures data[begin * BLOCK..end * BLOCK][k] == 0 {
        var b := begin + k / BLOCK;
        assert ZeroAt(data, b);
        assert BlockAt(data, b)[k % BLOCK] == ZeroBlock()[k % BLOCK];
      }
    }
  }

  predicate ValidRegion(data: seq<byte>, start: int) {
    data != [] && |data| % BLOCK == 0 && start >= 0
  }

  /** A body of this size does not fit its chunk's length field. */
  predicate TooLong(body: int) { CHUNK_HEADER + body > U32_MAX }

  /** Within the first `upto` blocks some stretch without a zero block is too long for one chunk. */
  ghost predicate LongRun(data: seq<byte>, upto: int)
    requires 0 <= upto && upto * BLOCK <= |data|
  {
    exists b, e :: 0 <= b <= e <= upto && LongStretch(data, b, e)
  }

  predicate LongStretch(data: seq<byte>, b: int, e: int)
    requires 0 <= b <= e && e * BLOCK <= |data|
  {
    TooLong((e - b) * BLOCK) && forall k :: b <= k < e ==> !ZeroAt(data, k)
  }

  /** A run that starts at a change between zero and non-zero is judged by itself. */
  lemma RunAddsLong(data: seq<byte>, begin: int, end: int)
    requires 0 <= begin < end && end * BLOCK <= |data|
    requires begin > 0 ==> ZeroAt(data, begin - 1) != ZeroAt(data, begin)
    requires forall b :: begin <= b < end ==> ZeroAt(data, b) == ZeroAt(data, begin)
    ensures LongRun(data, end) <==> LongRun(data, begin) || (!ZeroAt(data, begin) && TooLong((end - begin) * BLOCK))
  {
    hide ZeroAt;
    if !ZeroAt(data, begin) && TooLong((end - begin) * BLOCK) { assert LongStretch(data, begin, end); }
    if LongRun(data, end) {
      var b, e :| 0 <= b <= e <= end && LongStretch(data, b, e);
      if e > begin {
        assert b >= begin;
        assert !ZeroAt(data, b);
      }
    }
  }

  lemma LongRunIsLong(data: seq<byte>, upto: int)
    requires 0 <= upto && upto * BLOCK <= |data|
    ensures LongRun(data, upto) ==> TooLong(|data|)
  {
    hide ZeroAt;
  }

  /** `encode_region`. Flashing the result onto any partition of the image's size writes exactly the
      region and keeps every other byte; zero blocks are written too. */
  method EncodeRegion(data: seq<byte>, start: int, total: int) returns (r: Result<seq<byte>, EncodeError>)
    ensures !ValidRegion(data, start) <==> r == Err(InvalidRegion)
    ensures ValidRegion(data, start) ==> (start + |data| / BLOCK > total <==> r == Err(ExceedsImage))
    ensures r == Err(OutOfRange) <==>
      && ValidRegion(data, start) && start + |data| / BLOCK <= total
      && (total > U32_MAX || LongRun(data, |data| / BLOCK))
    ensures r == Err(OutOfRange) ==> total > U32_MAX || TooLong(|data|)
    ensures r.Ok? ==>
      && |r.value| <= HEADER + CHUNK_HEADER * (|data| / BLOCK + 2) + |data|
      && forall p: seq<byte> :: |p| == total * BLOCK ==> Flash(r.value, p) == Some(Overlaid(p, start * BLOCK, data))
  {
    if data == [] || |data| % BLOCK != 0 || start < 0 { return Err(InvalidRegion); }
    var count := |data| / BLOCK;
    if start + count > total { return Err(ExceedsImage); }
    hide Overlays, Blocks, BodySize, ValidChunk, LongRun, Flash, Overlaid, Encoded;
    var chunks := RegionChunks(data, start, total, count);
    LongRunIsLong(data, count);
    OnlyBodiesFail(chunks, |data|, total);
    r := Pack(total, chunks);
    if r.Ok? {
      PackedSize(chunks);
      forall p: seq<byte> | |p| == total * BLOCK
        ensures Flash(r.value, p) == Some(Overlaid(p, start * BLOCK, data))
      {
        FlashEncoded(total, chunks, p);
      }
    }
  }

  predicate SmallChunk(c: Chunk, size: int, total: int) {
    0 <= c.kind < 0x1_0000 && |c.body| <= size && 0 <= c.blocks <= total
  }

  /** In an image whose size fits, only a chunk's body can fail to pack. */
  lemma OnlyBodiesFail(chunks: seq<Chunk>, size: int, total: int)
    requires total <= U32_MAX ==> forall c :: c in chunks ==> SmallChunk(c, size, total)
    ensures total <= U32_MAX ==>
      ((forall c :: c in chunks ==> Packable(c)) <==> !exists c :: c in chunks && TooLong(|c.body|))
  {
  }

  /** The two loops over zero and non-zero runs, between the leading and trailing SKIP. */
  method RegionChunks(data: seq<byte>, start: int, total: int, count: int) returns (chunks: seq<Chunk>)
    requires ValidRegion(data, start) && count == |data| / BLOCK && start + count <= total
    ensures Overlays(chunks, start, data, total) && Blocks(chunks) == total
    ensures forall c :: c in chunks ==> SmallChunk(c, |data|, total)
    ensures |chunks| <= count + 2 && BodySize(chunks) <= |data| && |chunks| <= total
    ensures (exists c :: c in chunks && TooLong(|c.body|)) <==> LongRun(data, count)
  {
    hide Overlays, Writes, Leaves, Blocks, BodySize, ValidChunk, ZeroAt, LongRun, TooLong;
    chunks := LeadingSkip(start, total);
    var begin := 0;
    assert data[..0] == [];
    NothingLong(data);
    while begin < count
      invariant 0 <= begin <= count
      invariant 0 < begin < count ==> ZeroAt(data, begin - 1) != ZeroAt(data, begin)
      invariant (exists c :: c in chunks && TooLong(|c.body|)) <==> LongRun(data, begin)
      invariant Writes(chunks, start, data[..begin * BLOCK], total)
      invariant forall c :: c in chunks ==> SmallChunk(c, |data|, total)
      invariant |chunks| <= (if start > 0 then 1 else 0) + begin && BodySize(chunks) <= begin * BLOCK
    {
      var end, c := NextRun(data, begin, count);
      BlocksOf(chunks, start, data[..begin * BLOCK], total);
      WritesMore(chunks, start, data[..begin * BLOCK], total, c, data[begin * BLOCK..end * BLOCK]);
      assert data[..begin * BLOCK] + data[begin * BLOCK..end * BLOCK] == data[..end * BLOCK];
      BodySizeAppend(chunks, c);
      RunAddsLong(data, begin, end);
      OneMore(chunks, c);
      chunks := chunks + [c];
      begin := end;
    }
    assert data[..count * BLOCK] == data;
    var remaining := total - start - count;
    BlocksOf(chunks, start, data, total);
    if remaining != 0 {
      var c := SkipChunk(remaining);
      SkipAfter(chunks, start, data, total, c);
      BodySizeAppend(chunks, c);
      OneMore(chunks, c);
      chunks := chunks + [c];
    }
  }

  lemma OneMore(chunks: seq<Chunk>, c: Chunk)
    ensures (exists d :: d in chunks + [c] && TooLong(|d.body|)) <==>
            (exists d :: d in chunks && TooLong(|d.body|)) || TooLong(|c.body|)
    ensures |c.body| <= 4 ==> !TooLong(|c.body|)
  {
    if TooLong(|c.body|) { assert c in chunks + [c]; }
    if d :| d in chunks && TooLong(|d.body|) { assert d in chunks + [c]; }
  }

  lemma NothingLong(data: seq<byte>)
    ensures !LongRun(data, 0) && !TooLong(0)
  {
    hide ZeroAt;
  }

  lemma BlocksOf(chunks: seq<Chunk>, lead: int, written: seq<byte>, total: int)
    requires Writes(chunks, lead, written, total) && |written| % BLOCK == 0
    ensures Blocks(chunks) == lead + |written| / BLOCK
    ensures Overlays(chunks, lead, written, total)
  {
  }

  function SkipChunk(n: int): (c: Chunk)
    requires n >= 0
    ensures ValidChunk(c) && c.blocks == n && c.kind == SKIP && c.body == []
  {
    Chunk(SKIP, n, [])
  }

  method LeadingSkip(start: int, total: int) returns (chunks: seq<Chunk>)
    requires 0 <= start <= total
    ensures Writes(chunks, start, [], total)
    ensures |chunks| == (if start > 0 then 1 else 0) && BodySize(chunks) == 0
    ensures forall c :: c in chunks ==> c == Chunk(SKIP, start, [])
  {
    chunks := [];
    if start != 0 {
      chunks := [Chunk(SKIP, start, [])];
      assert chunks[1..] == [];
      forall p: seq<byte> | |p| == total * BLOCK ensures Effect(chunks, p, 0) == Overlaid(p, start * BLOCK, []) {
        PutSkip(chunks[0], p, 0);
      }
    }
  }

  /** One maximal run of equally zero or equally non-zero blocks, as its chunk. */
  method NextRun(data: seq<byte>, begin: int, count: int) returns (end: int, c: Chunk)
    requires 0 <= begin < count && |data| == count * BLOCK
    ensures begin < end <= count && c.blocks == end - begin && ValidChunk(c)
    ensures 0 <= c.kind < 0x1_0000 && |c.body| <= (end - begin) * BLOCK
    ensures Leaves(c, data[begin * BLOCK..end * BLOCK])
    ensures forall b :: begin <= b < end ==> ZeroAt(data, b) == ZeroAt(data, begin)
    ensures end < count ==> ZeroAt(data, end) != ZeroAt(data, begin)
    ensures |c.body| == if ZeroAt(data, begin) then 4 else (end - begin) * BLOCK
  {
    var isZero := ZeroAt(data, begin);
    end := begin + 1;
    while end < count && ZeroAt(data, end) == isZero
      invariant begin < end <= count
      invariant forall b :: begin <= b < end ==> ZeroAt(data, b) == isZero
    {
      end := end + 1;
    }
    if isZero {
      ZeroRun(data, begin, end);
      c := Chunk(FILL, end - begin, [0, 0, 0, 0]);
    } else {
      c := Chunk(RAW, end - begin, data[begin * BLOCK..end * BLOCK]);
    }
  }

  /** Header and chunks packed; packing fails on a field that does not fit. */
  method Pack(total: int, chunks: seq<Chunk>) returns (r: Result<seq<byte>, EncodeError>)
    requires total >= 0 && forall c :: c in chunks ==> 0 <= c.kind < 0x1_0000 && c.blocks >= 0
    ensures r.Ok? <==> total <= U32_MAX && |chunks| <= U32_MAX && forall c :: c in chunks ==> Packable(c)
    ensures r.Ok? ==> r.value == Encoded(total, chunks)
    ensures r.Err? ==> r.error == OutOfRange
  {
    if total > U32_MAX || |chunks| > U32_MAX { return Err(OutOfRange); }
    var output := PackedHeader(total, |chunks|);
    hide PackedHeader, PackedChunk;
    assert chunks[..0] == [];
    for i := 0 to |chunks|
      invariant forall c :: c in chunks[..i] ==> Packable(c)
      invariant output == PackedHeader(total, |chunks|) + Packed(chunks[..i])
    {
      var c := chunks[i];
      if !Packable(c) { return Err(OutOfRange); }
      assert chunks[..i + 1] == chunks[..i] + [c];
      PackedAppend(chunks[..i], c);
      output := output + PackedChunk(c);
    }
    assert chunks[..|chunks|] == chunks;
    return Ok(output);
  }

  // ---------- streaming a whole image ----------

  const REGION := 32 * 1024 * 1024

  datatype WriteError =
    BadGeometry | CapacityTooSmall | Truncated | Encoding(e: EncodeError) | TooLarge | Refused | Changed

  function Smaller(a: int, b: int): int { if a <= b then a else b }

  /** `source.read(n)` at an offset. */
  function ReadFile(file: seq<byte>, offset: int, n: int): (data: seq<byte>)
    requires 0 <= offset <= |file| && 0 <= n
  {
    file[offset..Smaller(offset + n, |file|)]
  }

  /** The partition holds the first n bytes of the file and its old bytes behind them. */
  ghost predicate Prefix(file: seq<byte>, was: seq<byte>, partition: seq<byte>, n: int) {
    0 <= n <= |file| && n <= |was| && partition == file[..n] + was[n..]
  }

  /** One iteration: read, encode, check the size, send, flash. */
  method WriteRegion(data: seq<byte>, offset: int, imageSize: int, maximum: int, partition: seq<byte>)
    returns (error: Option<WriteError>, flashed: seq<byte>)
    requires 0 <= offset && offset + |data| <= imageSize == |partition| && offset % BLOCK == imageSize % BLOCK == 0
    requires |data| <= REGION && maximum >= REGION + 1024 * 1024
    ensures error == (if data == [] || |data| % BLOCK != 0 then Some(Truncated)
                      else if imageSize / BLOCK > U32_MAX then Some(Encoding(OutOfRange)) else None)
    ensures flashed == if error.None? then Overlaid(partition, offset, data) else partition
  {
    if data == [] || |data| % BLOCK != 0 { return Some(Truncated), partition; }
    RegionInside(offset, |data|, imageSize);
    var sparse := EncodeRegion(data, offset / BLOCK, imageSize / BLOCK);
    hide Flash, Overlaid;
    if sparse.Err? {
      assert ValidRegion(data, offset / BLOCK) && sparse != Err(InvalidRegion) && sparse != Err(ExceedsImage);
      assert sparse.error == OutOfRange;
      return Some(Encoding(sparse.error)), partition;
    }
    if |sparse.value| > maximum { return Some(TooLarge), partition; }
    var result := Flash(sparse.value, partition);
    if result.None? { return Some(Refused), partition; }
    return None, result.value;
  }

  /** The region loop. `file` is what the image file really holds while it is read, `imageSize` and
      `expected` what the contract names. The partition ends as the whole file exactly when the file has
      the named size and digest; on every other outcome it holds a written prefix and its old tail, and
      neither the size limit nor the decoder is ever the reason. */
  method WriteImage(file: seq<byte>, imageSize: int, maximum: int, was: seq<byte>, digest: seq<byte> -> int,
      expected: int)
    returns (error: Option<WriteError>, partition: seq<byte>)
    requires |was| == imageSize
    ensures error.None? <==>
      && imageSize > 0 && imageSize % BLOCK == 0 && imageSize / BLOCK <= U32_MAX && maximum >= REGION + 1024 * 1024
      && |file| == imageSize && digest(file) == expected
    ensures error.None? ==> partition == file
    ensures exists n :: Prefix(file, was, partition, n)
    ensures error != Some(TooLarge) && error != Some(Refused)
    ensures error.Some? && error.value.Encoding? ==> imageSize / BLOCK > U32_MAX
  {
    partition := was;
    assert Prefix(file, was, was, 0);
    if imageSize <= 0 || imageSize % BLOCK != 0 { return Some(BadGeometry), partition; }
    if maximum < REGION + 1024 * 1024 { return Some(CapacityTooSmall), partition; }
    hide Prefix, Overlaid, ReadFile;
    var offset := 0;
    while offset < imageSize
      invariant 0 <= offset <= imageSize && offset <= |file| && offset % BLOCK == 0 && |partition| == imageSize
      invariant Prefix(file, was, partition, offset)
      invariant offset > 0 ==> imageSize / BLOCK <= U32_MAX
      decreases imageSize - offset
    {
      var data := ReadFile(file, offset, Smaller(REGION, imageSize - offset));
      ReadBounds(file, offset, Smaller(REGION, imageSize - offset));
      var failure, flashed := WriteRegion(data, offset, imageSize, maximum, partition);
      if failure.Some? { return failure, partition; }
      RegionWritten(file, was, partition, offset, data);
      partition := flashed;
      offset := offset + |data|;
    }
    WholeFile(file, was, partition, offset);
    if offset < |file| || digest(file[..offset]) != expected { return Some(Changed), partition; }
    return None, partition;
  }

  lemma ReadBounds(file: seq<byte>, offset: int, n: int)
    requires 0 <= offset <= |file| && 0 <= n
    ensures var data := ReadFile(file, offset, n);
            |data| == Smaller(n, |file| - offset) && data == file[offset..offset + |data|]
  {
  }

  lemma WholeFile(file: seq<byte>, was: seq<byte>, partition: seq<byte>, n: int)
    requires Prefix(file, was, partition, n) && n == |was|
    ensures n == |file| ==> partition == file && file[..n] == file
  {
  }

  lemma RegionInside(offset: int, n: int, size: int)
    requires 0 <= offset && 0 <= n && offset + n <= size && offset % BLOCK == n % BLOCK == size % BLOCK == 0
    ensures offset / BLOCK * BLOCK == offset && size / BLOCK * BLOCK == size
    ensures 0 <= offset / BLOCK && offset / BLOCK + n / BLOCK <= size / BLOCK
  {
  }

  lemma RegionWritten(file: seq<byte>, was: seq<byte>, partition: seq<byte>, offset: int, data: seq<byte>)
    requires Prefix(file, was, partition, offset) && offset + |data| <= |was| && offset + |data| <= |file|
    requires data == file[offset..offset + |data|]
    ensures Prefix(file, was, Overlaid(partition, offset, data), offset + |data|)
    ensures |Overlaid(partition, offset, data)| == |was|
  {
    var end := offset + |data|;
    assert partition[..offset] == file[..offset] && partition[end..] == was[end..];
    assert file[..offset] + data == file[..end];
  }
}
