/** How a tensor is cut into segments and how its block is laid out (kv_zip.cpp). Sizes are the code's uint32_t
    values; FitsUint32 shows that no cast to uint32_t loses bits for the block sizes the code accepts. */
module ZipLayout {
  import opened Buffers
  import opened DataShuffle
  import Arith

  const HEADER_BYTES := 20
  const ENTRY_BYTES := 12
  const INT_MAX := 0x7FFF_FFFF
  const UINT32_MAX := 0xFFFF_FFFF

  /** BlockHeader without the magic and the version, which only reject foreign blocks. */
  datatype Header = Header(shuffled: bool, exponentOnly: bool, origSize: nat, segmentSize: nat, segments: nat)

  /** SegmentEntry; `stored` and `iaa` are its two flags. */
  datatype Entry = Entry(offset: nat, length: nat, stored: bool, iaa: bool)

  function SegmentCount(origSize: nat, segmentSize: nat): nat
    requires segmentSize > 0
  {
    if origSize / segmentSize < 1 then 1 else origSize / segmentSize
  }

  /** `segmentKb` is IAXL_ZIP_SEGMENT_SIZE_KB. */
  function SegmentSizeFor(segmentKb: nat, origSize: nat): (size: nat)
    ensures size > 0
  {
    var size := segmentKb * 1024;
    if size == 0 || size >= origSize then (if origSize < 1 then 1 else origSize) else size
  }

  function MakeHeader(segmentKb: nat, origSize: nat, shuffled: bool, exponentOnly: bool): Header {
    var size := SegmentSizeFor(segmentKb, origSize);
    Header(shuffled, exponentOnly, origSize, size, SegmentCount(origSize, size))
  }

  /** What kv_zip_decompress_batch demands of a header. */
  predicate Valid(h: Header) {
    && h.segmentSize > 0
    && h.segments == SegmentCount(h.origSize, h.segmentSize)
    && (h.exponentOnly ==> h.shuffled)
  }

  /** No segment boundary splits a 16-bit element. */
  predicate Aligned(h: Header) { h.segments == 1 || h.segmentSize % 2 == 0 }

  function Start(h: Header, k: nat): nat { k * h.segmentSize }

  /** Tensor bytes of segment k. */
  function Length(h: Header, k: nat): int {
    if k + 1 < h.segments then h.segmentSize else h.origSize - k * h.segmentSize
  }

  /** Bytes of segment k that go through the backend. */
  function ZipLength(h: Header, k: nat): int {
    if h.exponentOnly then Length(h, k) / 2 else Length(h, k)
  }

  function PayloadStart(segments: nat): nat { HEADER_BYTES + segments * ENTRY_BYTES }

  lemma SegmentsFit(h: Header)
    requires Valid(h)
    ensures h.segments >= 1
    ensures h.segments == 1 || h.segments * h.segmentSize <= h.origSize
  {
    var q := h.origSize / h.segmentSize;
    assert q * h.segmentSize <= h.origSize;
  }

  /** Every segment lies inside the tensor and ends where the next one starts, the last one at the end. */
  lemma RegionFits(h: Header, k: nat)
    requires Valid(h) && k < h.segments
    ensures 0 <= Length(h, k) && Start(h, k) + Length(h, k) <= h.origSize
    ensures k + 1 < h.segments ==> Start(h, k) + Length(h, k) == Start(h, k + 1)
    ensures k + 1 == h.segments ==> Start(h, k) + Length(h, k) == h.origSize
    ensures 0 <= ZipLength(h, k) <= Length(h, k)
    ensures k + 1 < h.segments ==> Length(h, k) == h.segmentSize
    ensures ZipLength(h, k) == if h.exponentOnly then Length(h, k) / 2 else Length(h, k)
  {
    SegmentsFit(h);
    if h.segments > 1 {
      Arith.MulMono(k + 1, h.segments, h.segmentSize);
      assert (k + 1) * h.segmentSize == k * h.segmentSize + h.segmentSize;
    }
  }

  lemma RegionsDisjoint(h: Header, j: nat, k: nat)
    requires Valid(h) && j < k < h.segments
    ensures Start(h, j) + Length(h, j) <= Start(h, k)
  {
    Arith.MulMono(j + 1, k, h.segmentSize);
    assert (j + 1) * h.segmentSize == j * h.segmentSize + h.segmentSize;
  }

  lemma SizeFor(segmentKb: nat, origSize: nat)
    ensures var size := SegmentSizeFor(segmentKb, origSize);
            || (SegmentCount(origSize, size) == 1 && size >= origSize)
            || (size >= 1024 && size % 2 == 0)
  {
    var kb := segmentKb * 1024;
    assert kb == 2 * (512 * segmentKb);
    if (kb == 0 || kb >= origSize) && origSize >= 1 {
      assert origSize / origSize == 1;
    }
  }

  /** Headers the compressor makes pass the decompressor's checks and never split an element. */
  lemma MadeHeadersAreValid(segmentKb: nat, origSize: nat, shuffled: bool, exponentOnly: bool)
    requires exponentOnly ==> shuffled
    ensures var h := MakeHeader(segmentKb, origSize, shuffled, exponentOnly); Valid(h) && Aligned(h)
  {
    SizeFor(segmentKb, origSize);
  }

  /** How a tensor is cut: into as many segments of the configured size as it holds whole, the last one with the rest; into
      one when no size is configured or the tensor is no larger. */
  lemma HeaderCuts(segmentKb: nat, origSize: nat, shuffled: bool, exponentOnly: bool)
    ensures var h := MakeHeader(segmentKb, origSize, shuffled, exponentOnly);
            && h.origSize == origSize && h.shuffled == shuffled && h.exponentOnly == exponentOnly
            && (0 < segmentKb * 1024 < origSize ==>
                  && h.segmentSize == segmentKb * 1024 && h.segments >= 1
                  && h.segments * (segmentKb * 1024) <= origSize < (h.segments + 1) * (segmentKb * 1024)
                  && segmentKb * 1024 <= Length(h, h.segments - 1) < 2 * (segmentKb * 1024))
            && (segmentKb == 0 || segmentKb * 1024 >= origSize ==> h.segments == 1 && Length(h, 0) == origSize)
  {
    var h, size := MakeHeader(segmentKb, origSize, shuffled, exponentOnly), segmentKb * 1024;
    SizeFor(segmentKb, origSize);
    if 0 < size < origSize {
      assert h.segmentSize == size;
      Quotient(origSize, size);
      assert (h.segments - 1) * size == h.segments * size - size;
      assert (h.segments + 1) * size == h.segments * size + size;
    } else if origSize > 0 {
      assert origSize / origSize == 1;
    }
  }

  lemma Quotient(a: nat, b: nat)
    requires 0 < b <= a
    ensures 1 <= a / b && (a / b) * b <= a < (a / b) * b + b
  {
    assert a == (a / b) * b + a % b;
  }

  /** Every offset in a block of at most INT_MAX tensor bytes fits the table's uint32_t fields. */
  lemma FitsUint32(segmentKb: nat, origSize: nat, shuffled: bool, exponentOnly: bool)
    requires origSize <= INT_MAX && (exponentOnly ==> shuffled)
    ensures var h := MakeHeader(segmentKb, origSize, shuffled, exponentOnly);
            PayloadStart(h.segments) + origSize <= UINT32_MAX
  {
    var h := MakeHeader(segmentKb, origSize, shuffled, exponentOnly);
    SizeFor(segmentKb, origSize);
    SegmentsFit(h);
    if h.segments > 1 {
      Arith.MulMono(1024, h.segmentSize, h.segments);
    }
  }

  /** The bytes of segment k of a tensor. */
  function Segment(h: Header, data: Bytes, k: nat): (r: Bytes)
    requires Valid(h) && k < h.segments && |data| == h.origSize
    ensures |r| == Length(h, k)
  {
    RegionFits(h, k);
    Slice(data, Start(h, k), Length(h, k))
  }

  /** A write inside the region of segment j leaves every other segment alone. */
  lemma OtherSegmentsKept(h: Header, data: Bytes, j: nat, bytes: Bytes, k: nat)
    requires Valid(h) && j < h.segments && k < h.segments && j != k
    requires |data| == h.origSize && |bytes| <= Length(h, j)
    ensures Start(h, j) + |bytes| <= |data|
    ensures Segment(h, Write(data, Start(h, j), bytes), k) == Segment(h, data, k)
  {
    RegionFits(h, j);
    RegionFits(h, k);
    if j < k { RegionsDisjoint(h, j, k); } else { RegionsDisjoint(h, k, j); }
    ReadElsewhere(data, Start(h, j), bytes, Start(h, k), Length(h, k));
  }

  lemma SameByte(h: Header, a: Bytes, b: Bytes, k: nat, o: nat)
    requires Valid(h) && |a| == |b| == h.origSize && k < h.segments
    requires Start(h, k) <= o < Start(h, k) + Length(h, k)
    requires Segment(h, a, k) == Segment(h, b, k)
    ensures o < |a| && a[o] == b[o]
  {
    RegionFits(h, k);
    var s := Start(h, k);
    assert Segment(h, a, k)[o - s] == a[s + (o - s)];
    assert Segment(h, b, k)[o - s] == b[s + (o - s)];
  }

  /** A tensor is the concatenation of its segments: two that agree on every segment are equal. */
  lemma SegmentsDetermine(h: Header, a: Bytes, b: Bytes)
    requires Valid(h) && |a| == |b| == h.origSize
    requires forall k :: 0 <= k < h.segments ==> Segment(h, a, k) == Segment(h, b, k)
    ensures a == b
  {
    forall o | 0 <= o < |a| ensures a[o] == b[o] {
      var k := SegmentOf(h, o);
      SameByte(h, a, b, k, o);
    }
  }

  /** The segment that holds byte o. */
  lemma SegmentOf(h: Header, o: nat) returns (k: nat)
    requires Valid(h) && o < h.origSize
    ensures k < h.segments && Start(h, k) <= o < Start(h, k) + Length(h, k)
  {
    k := 0;
    while k + 1 < h.segments && Start(h, k + 1) <= o
      invariant k < h.segments && Start(h, k) <= o
    {
      k := k + 1;
    }
    RegionFits(h, k);
  }

  lemma MaskedSlice(data: Bytes, mask: Word, at: nat, len: nat)
    requires at + len <= |data| && at % 2 == 0
    ensures Masked(Slice(data, at, len), mask) == Slice(Masked(data, mask), at, len)
  {
    forall i | 0 <= i < len ensures Masked(Slice(data, at, len), mask)[i] == Slice(Masked(data, mask), at, len)[i] {
      assert MaskAt(mask, i) == MaskAt(mask, at + i);
    }
  }

  /** Masking commutes with cutting: with aligned segments the parity inside a segment is the absolute one. */
  lemma MaskedSegment(h: Header, data: Bytes, mask: Word, k: nat)
    requires Valid(h) && Aligned(h) && k < h.segments && |data| == h.origSize
    ensures Masked(Segment(h, data, k), mask) == Segment(h, Masked(data, mask), k)
  {
    RegionFits(h, k);
    EvenStart(h, k);
    MaskedSlice(data, mask, Start(h, k), Length(h, k));
  }

  lemma EvenStart(h: Header, k: nat)
    requires Aligned(h) && k < h.segments
    ensures Start(h, k) % 2 == 0
  {
    if h.segments == 1 {
      assert k == 0;
    } else {
      var half := h.segmentSize / 2;
      assert h.segmentSize == 2 * half;
      assert k * (2 * half) == 2 * (k * half);
    }
  }
}
