/** table/format.cc: block handles, blocks with their trailers, and the footer of a table file. */
module TableFormat {
  import opened Wrappers
  import opened Bytes
  import opened Coding
  import opened Crc32c

  datatype BlockHandle = BlockHandle(offset: nat, size: nat)

  const TRAILER_SIZE: nat := 5
  const MAX_HANDLES_LENGTH: nat := 40   // two handles of at most twenty bytes
  const FOOTER_LENGTH: nat := 48
  const MAGIC: nat := 0xdb47_7524_8b80_fb57
  const NO_COMPRESSION: byte := 0

  function EncodeHandle(h: BlockHandle): Bytes {
    Varint(h.offset) + Varint(h.size)
  }

  function DecodeHandle(input: Bytes): Got<BlockHandle> {
    match UnVarint64(input)
    case Failed => Failed
    case Got(offset, r0) =>
      match UnVarint64(r0)
      case Failed => Failed
      case Got(size, r1) => Got(BlockHandle(offset, size), r1)
  }

  predicate HandleFits(h: BlockHandle) {
    h.offset < LIMIT64 && h.size < LIMIT64
  }

  lemma HandleRoundTrip(h: BlockHandle, rest: Bytes)
    requires HandleFits(h)
    ensures DecodeHandle(EncodeHandle(h) + rest) == Got(h, rest) && |EncodeHandle(h)| <= 20
  {
    hide Varint, UnVarint64;
    Varint64RoundTrip(h.size, rest);
    Varint64RoundTrip(h.offset, Varint(h.size) + rest);
    assert EncodeHandle(h) + rest == Varint(h.offset) + (Varint(h.size) + rest);
  }

  // --- Blocks in a file ---

  /** The checksum stored after a block: of its bytes and the type byte. */
  function BlockCrc(block: Bytes): bv32 {
    Mask(Crc(Crc(0, block), [NO_COMPRESSION]))
  }

  function Trailer(block: Bytes): (r: Bytes)
    ensures |r| == TRAILER_SIZE
  {
    [NO_COMPRESSION] + Fixed32(BlockCrc(block))
  }

  /** The block, followed by its trailer, stands where the handle says. */
  ghost predicate StoredAt(file: Bytes, h: BlockHandle, block: Bytes) {
    && h.size == |block| && h.offset + |block| + TRAILER_SIZE <= |file|
    && file[h.offset..h.offset + |block|] == block
    && file[h.offset + |block|..h.offset + |block| + TRAILER_SIZE] == Trailer(block)
  }

  lemma StoredStays(file: Bytes, more: Bytes, h: BlockHandle, block: Bytes)
    requires StoredAt(file, h, block)
    ensures StoredAt(file + more, h, block)
  {
    hide Trailer;
    assert (file + more)[h.offset..h.offset + |block|] == file[h.offset..h.offset + |block|];
    assert (file + more)[h.offset + |block|..h.offset + |block| + TRAILER_SIZE] ==
           file[h.offset + |block|..h.offset + |block| + TRAILER_SIZE];
  }

  lemma StoredLast(file: Bytes, block: Bytes)
    ensures StoredAt(file + block + Trailer(block), BlockHandle(|file|, |block|), block)
  {
    hide Trailer;
    var all := file + block + Trailer(block);
    assert all[|file|..|file| + |block|] == block;
    assert all[|file| + |block|..|file| + |block| + TRAILER_SIZE] == Trailer(block);
  }

  /** ReadBlock: the block's bytes, or nothing if it is cut off, fails its checksum or is of another type. */
  method ReadBlock(file: Bytes, h: BlockHandle, verifyChecksums: bool) returns (r: Option<Bytes>)
    ensures forall block :: StoredAt(file, h, block) ==> r == Some(block)
  {
    hide Fixed32, Crc, Mask, Unmask, UnFixed32, Widen, StoredAt;
    var n := h.size;
    r := None;
    if h.offset + n + TRAILER_SIZE <= |file| {   // otherwise a truncated block read
      var data := file[h.offset..h.offset + n + TRAILER_SIZE];
      var ok := true;
      if verifyChecksums {
        var crc := Unmask(UnFixed32(data[n + 1..]));
        var actual := Extend(0, data[..n + 1], 0);
        ok := actual == crc;
      }
      if ok && data[n] == NO_COMPRESSION {
        r := Some(data[..n]);
      }
    }
    forall block | StoredAt(file, h, block) ensures r == Some(block) {
      StoredReads(file, h, block);
    }
  }

  lemma StoredReads(file: Bytes, h: BlockHandle, block: Bytes)
    requires StoredAt(file, h, block)
    ensures h.offset + h.size + TRAILER_SIZE <= |file|
    ensures var data := file[h.offset..h.offset + h.size + TRAILER_SIZE];
            && data[..h.size] == block && data[h.size] == NO_COMPRESSION
            && Crc(0, data[..h.size + 1]) == Unmask(UnFixed32(data[h.size + 1..]))
  {
    hide Fixed32, Crc, Mask, Unmask, UnFixed32;
    var n := h.size;
    var data := file[h.offset..h.offset + n + TRAILER_SIZE];
    assert data[..n] == file[h.offset..h.offset + n];
    assert data[n..] == file[h.offset + n..h.offset + n + TRAILER_SIZE] == Trailer(block);
    assert data[n] == data[n..][0];
    assert data[..n + 1] == block + [NO_COMPRESSION];
    assert data[n + 1..] == data[n..][1..] == Fixed32(BlockCrc(block));
    CrcConcat(0, block, [NO_COMPRESSION]);
    UnmaskMask(Crc(Crc(0, block), [NO_COMPRESSION]));
    Fixed32RoundTrip(BlockCrc(block), []);
    assert Fixed32(BlockCrc(block)) + [] == Fixed32(BlockCrc(block));
  }

  // --- Footer ---

  function Padded(handles: Bytes): Bytes {
    if |handles| <= MAX_HANDLES_LENGTH then handles + seq(MAX_HANDLES_LENGTH - |handles|, i => 0)
      else handles[..MAX_HANDLES_LENGTH]
  }

  function Footer(metaindex: BlockHandle, index: BlockHandle): Bytes {
    Padded(EncodeHandle(metaindex) + EncodeHandle(index)) + Fixed(MAGIC % LIMIT32, 4) + Fixed(MAGIC / LIMIT32, 4)
  }

  datatype Footers = BadFooter | Footers(metaindex: BlockHandle, index: BlockHandle)

  /** Footer::DecodeFrom. */
  method DecodeFooter(input: Bytes) returns (r: Footers)
    requires |input| == FOOTER_LENGTH
    ensures forall m, i :: HandleFits(m) && HandleFits(i) && input == Footer(m, i) ==> r == Footers(m, i)
  {
    hide Fixed, UnFixed, EncodeHandle, DecodeHandle, Padded, HandleFits, Footer;
    var lo, hi := UnFixed(input[40..44]), UnFixed(input[44..48]);
    if lo + LIMIT32 * hi != MAGIC {
      r := BadFooter;
    } else {
      var metaindex := DecodeHandle(input[..40]);
      if metaindex.Failed? {
        r := BadFooter;
      } else {
        var index := DecodeHandle(metaindex.rest);
        r := if index.Failed? then BadFooter else Footers(metaindex.value, index.value);
      }
    }
    forall m, i | HandleFits(m) && HandleFits(i) && input == Footer(m, i) ensures r == Footers(m, i) {
      FooterReads(m, i);
    }
  }

  lemma FooterReads(m: BlockHandle, i: BlockHandle)
    requires HandleFits(m) && HandleFits(i)
    ensures var f := Footer(m, i);
            && |f| == FOOTER_LENGTH && UnFixed(f[40..44]) + LIMIT32 * UnFixed(f[44..48]) == MAGIC
            && DecodeHandle(f[..40]).Got? && DecodeHandle(f[..40]).value == m
            && DecodeHandle(DecodeHandle(f[..40]).rest).Got? && DecodeHandle(DecodeHandle(f[..40]).rest).value == i
  {
    hide Fixed, UnFixed, EncodeHandle, DecodeHandle, HandleFits;
    var f := Footer(m, i);
    HandleRoundTrip(m, []);
    HandleRoundTrip(i, []);
    var both := EncodeHandle(m) + EncodeHandle(i);
    var pad := seq(MAX_HANDLES_LENGTH - |both|, j => 0);
    HandleRoundTrip(i, pad);
    HandleRoundTrip(m, EncodeHandle(i) + pad);
    assert f[..40] == EncodeHandle(m) + (EncodeHandle(i) + pad);
    assert f[40..44] == Fixed(MAGIC % LIMIT32, 4) && f[44..48] == Fixed(MAGIC / LIMIT32, 4);
    Power256Of4();
    FixedRoundTrip(MAGIC % LIMIT32, 4);
    FixedRoundTrip(MAGIC / LIMIT32, 4);
  }
}
