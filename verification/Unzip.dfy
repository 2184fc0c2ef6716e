/** Decompression (kv_zip_decompress_batch): segments are placed in the tensor in whatever order their backends finish,
    each on any backend able to decode it. Composed with any compression run it restores the masked tensor. */
module Unzip {
  import opened Buffers
  import opened DataShuffle
  import opened ZipLayout
  import opened Wrappers
  import opened ZipBlock
  import opened ZipRuns

  /** Stored segments need no backend, IAA streams go only to IAA, the others to QAT or CPU. */
  predicate Routed(e: Entry, backend: Backend) { e.stored || (e.iaa <==> backend.IAA?) }

  /** Undoes the shuffle: shuffle_copy over the head and the tail, or a plain copy. */
  function Unprepare(h: Header, head: Bytes, tail: Bytes): (r: Bytes)
    ensures |r| == |head| + |tail|
  {
    if h.shuffled then Shuffled(head + tail) else head + tail
  }

  /** The bytes `place` writes for segment k of block b, or None where an IAXL_CHECK aborts. */
  function Placed(decode: Decoder, b: Block, k: nat, backend: Backend): (r: Option<Bytes>)
    requires Valid(b.header) && k < b.header.segments == |b.table|
  {
    var h, e, base := b.header, b.table[k], PayloadStart(b.header.segments);
    var full, raw := Length(h, k), Length(h, k) - ZipLength(h, k);
    if !(0 <= e.offset - base <= e.offset - base + e.length <= |b.payloads|) then None
    else
      var p := Slice(b.payloads, e.offset - base, e.length);
      if e.stored then
        if |p| == full then Some(Unprepare(h, p, [])) else None
      else if e.length <= raw || raw < 0 then None
      else
        var out := decode(backend, p[..e.length - raw]);
        if |out| != (if h.exponentOnly then ZipLength(h, k) else full) then None
        else Some(Unprepare(h, out, if h.exponentOnly then p[e.length - raw..] else []))
  }

  /** Bytes of segment k that are stored raw. */
  function RawLength(h: Header, k: nat): (r: nat)
    requires Valid(h) && k < h.segments
    ensures r <= Length(h, k)
  {
    RegionFits(h, k);
    if h.exponentOnly then Length(h, k) - Length(h, k) / 2 else 0
  }

  /** The payload lies in the buffer; a stored segment is as long as its segment; a stream is more than the raw rest and
      decodes to the part of the segment that was compressed. */
  predicate Placeable(decode: Decoder, b: Block, k: nat, backend: Backend)
    requires Valid(b.header) && k < b.header.segments == |b.table|
  {
    var e, start, raw := b.table[k], 20 + 12 * b.header.segments, RawLength(b.header, k);
    && start <= e.offset && e.offset - start + e.length <= |b.payloads|
    && if e.stored then e.length == Length(b.header, k)
       else raw < e.length && |decode(backend, Slice(b.payloads, e.offset - start, e.length - raw))| == Length(b.header, k) - raw
  }

  /** When a placement aborts, for any block, good or not. */
  lemma PlacedExactlyWhen(decode: Decoder, b: Block, k: nat, backend: Backend)
    requires Valid(b.header) && k < b.header.segments == |b.table|
    ensures Placed(decode, b, k, backend).Some? <==> Placeable(decode, b, k, backend)
  {
    var h, e, start := b.header, b.table[k], 20 + 12 * b.header.segments;
    RegionFits(h, k);
    var raw := RawLength(h, k);
    if start <= e.offset && e.offset - start + e.length <= |b.payloads| && raw < e.length {
      assert Slice(b.payloads, e.offset - start, e.length)[..e.length - raw] == Slice(b.payloads, e.offset - start, e.length - raw);
    }
  }

  lemma UnprepareUndoes(t: Task, k: nat, head: Bytes, tail: Bytes)
    requires t.Valid() && k < t.h.segments && head + tail == Prepared(t, k)
    ensures Unprepare(t.h, head, tail) == Masked(Segment(t.h, t.input, k), t.mask)
  {
    if t.h.shuffled {
      ShuffleInvolutive(Masked(Segment(t.h, t.input, k), t.mask));
    }
  }

  lemma StoredPlaces(t: Task, b: Block, k: nat, backend: Backend)
    requires t.Valid() && k < t.h.segments == |b.table| && b.header == t.h
    requires GoodEntry(t, b, k) && b.table[k].stored
    ensures Placed(t.decode, b, k, backend) == Some(Masked(Segment(t.h, t.input, k), t.mask))
  {
    var e := b.table[k];
    var p := Slice(b.payloads, e.offset - PayloadStart(t.h.segments), e.length);
    assert p + [] == Prepared(t, k);
    UnprepareUndoes(t, k, p, []);
  }

  /** The head and tail `place` puts together are the prepared segment again. */
  lemma StreamParts(t: Task, e: Entry, p: Bytes, k: nat, backend: Backend)
    requires t.Valid() && k < t.h.segments && Good(t, k, e, p) && !e.stored && (e.iaa <==> backend.IAA?)
    ensures var z, raw := ZipLength(t.h, k), Length(t.h, k) - ZipLength(t.h, k);
            && 0 <= raw < e.length == |p|
            && |t.decode(backend, p[..e.length - raw])| == z
            && t.decode(backend, p[..e.length - raw]) + (if t.h.exponentOnly then p[e.length - raw..] else [])
               == Prepared(t, k)
  {
    RegionFits(t.h, k);
    var y, z := Prepared(t, k), ZipLength(t.h, k);
    var raw := Length(t.h, k) - z;
    assert t.decode(backend, p[..e.length - raw]) == y[..z];
    assert y[..z] + y[z..] == y;
    if !t.h.exponentOnly {
      assert y[..z] + [] == y;
    }
  }

  lemma StreamPlaces(t: Task, b: Block, k: nat, backend: Backend)
    requires t.Valid() && k < t.h.segments == |b.table| && b.header == t.h
    requires GoodEntry(t, b, k) && !b.table[k].stored && Routed(b.table[k], backend)
    ensures Placed(t.decode, b, k, backend) == Some(Masked(Segment(t.h, t.input, k), t.mask))
  {
    var e := b.table[k];
    var raw := Length(t.h, k) - ZipLength(t.h, k);
    var p := Slice(b.payloads, e.offset - PayloadStart(t.h.segments), e.length);
    StreamParts(t, e, p, k, backend);
    var out := t.decode(backend, p[..e.length - raw]);
    UnprepareUndoes(t, k, out, if t.h.exponentOnly then p[e.length - raw..] else []);
  }

  /** A good entry passes every check on every backend it may be routed to and yields its masked segment. */
  lemma GoodEntryPlaces(t: Task, b: Block, k: nat, backend: Backend)
    requires t.Valid() && k < t.h.segments == |b.table| && b.header == t.h
    requires GoodEntry(t, b, k) && Routed(b.table[k], backend)
    ensures Placed(t.decode, b, k, backend) == Some(Masked(Segment(t.h, t.input, k), t.mask))
  {
    if b.table[k].stored {
      StoredPlaces(t, b, k, backend);
    } else {
      StreamPlaces(t, b, k, backend);
    }
  }

  /** One placement: a segment and the backend that decoded it. */
  datatype Place = Place(k: nat, backend: Backend)

  /** The tensor after the placements of `order`, None if one of them aborts. */
  function PlaceAll(decode: Decoder, b: Block, dst: Bytes, order: seq<Place>): (r: Option<Bytes>)
    requires Valid(b.header) && b.header.segments == |b.table| && |dst| == b.header.origSize
    requires forall p :: p in order ==> p.k < b.header.segments
    ensures r.Some? ==> |r.value| == |dst|
  {
    if order == [] then Some(dst)
    else
      var last := order[|order| - 1];
      var before := PlaceAll(decode, b, dst, order[..|order| - 1]);
      var bytes := Placed(decode, b, last.k, last.backend);
      RegionFits(b.header, last.k);
      if before.None? || bytes.None? || |bytes.value| != Length(b.header, last.k) then None
      else Some(Write(before.value, Start(b.header, last.k), bytes.value))
  }

  ghost predicate Covered(order: seq<Place>, k: nat) { exists i :: 0 <= i < |order| && order[i].k == k }

  /** After any sequence of routed placements, the placed segments hold their masked bytes and the others are as
      they were. */
  lemma {:induction false} AnyOrder(t: Task, b: Block, dst: Bytes, order: seq<Place>, k: nat)
    requires t.Valid() && GoodBlock(t, b) && |dst| == t.h.origSize && k < t.h.segments
    requires forall p :: p in order ==> p.k < t.h.segments && Routed(b.table[p.k], p.backend)
    ensures var r := PlaceAll(t.decode, b, dst, order);
            r.Some? && Segment(t.h, r.value, k) ==
                       if Covered(order, k) then Masked(Segment(t.h, t.input, k), t.mask) else Segment(t.h, dst, k)
  {
    if order != [] {
      var last, front := order[|order| - 1], order[..|order| - 1];
      AnyOrder(t, b, dst, front, k);
      var before := PlaceAll(t.decode, b, dst, front);
      assert GoodEntry(t, b, last.k);
      GoodEntryPlaces(t, b, last.k, last.backend);
      var bytes := Masked(Segment(t.h, t.input, last.k), t.mask);
      RegionFits(t.h, last.k);
      if last.k == k {
        ReadWritten(before.value, Start(t.h, k), bytes);
        assert Covered(order, k);
      } else {
        OtherSegmentsKept(t.h, before.value, last.k, bytes, k);
        CoveredByFront(order, k);
      }
    }
  }

  lemma CoveredByFront(order: seq<Place>, k: nat)
    requires order != [] && order[|order| - 1].k != k
    ensures Covered(order, k) <==> Covered(order[..|order| - 1], k)
  {
    var front := order[..|order| - 1];
    if Covered(order, k) {
      var i :| 0 <= i < |order| && order[i].k == k;
      assert front[i].k == k;
    }
  }

  ghost predicate Complete(t: Task, b: Block, order: seq<Place>)
    requires |b.table| == t.h.segments
  {
    && (forall p :: p in order ==> p.k < t.h.segments && Routed(b.table[p.k], p.backend))
    && (forall k :: 0 <= k < t.h.segments ==> Covered(order, k))
  }

  /** Decompressing a good block in any order restores the masked tensor, whatever the destination held. */
  lemma GoodBlockDecompresses(t: Task, b: Block, dst: Bytes, order: seq<Place>)
    requires t.Valid() && Aligned(t.h) && GoodBlock(t, b) && |dst| == t.h.origSize && Complete(t, b, order)
    ensures PlaceAll(t.decode, b, dst, order) == Some(Masked(t.input, t.mask))
  {
    var r := PlaceAll(t.decode, b, dst, order);
    SegmentsFit(t.h);
    AnyOrder(t, b, dst, order, 0);
    forall k | 0 <= k < t.h.segments ensures Segment(t.h, r.value, k) == Segment(t.h, Masked(t.input, t.mask), k) {
      AnyOrder(t, b, dst, order, k);
      MaskedSegment(t.h, t.input, t.mask, k);
    }
    SegmentsDetermine(t.h, r.value, Masked(t.input, t.mask));
  }

  /** Every complete sequence of placements turns every destination into the masked tensor. */
  ghost predicate Restores(t: Task, b: Block)
    requires t.Valid() && b.header == t.h && |b.table| == t.h.segments
  {
    forall dst: Bytes, order: seq<Place> :: |dst| == t.h.origSize && Complete(t, b, order) ==>
      PlaceAll(t.decode, b, dst, order) == Some(Masked(t.input, t.mask))
  }

  /** Main result: whatever the interleaving, the backends and the streams of a compression run, and whatever the
      order and backends of the decompression, the tensor comes back with the mask applied at every byte's absolute
      parity, although payloads overwrote it while it was being compressed. */
  lemma RoundTrip(segmentKb: nat, shuffled: bool, exponentOnly: bool, mask: Word, input: Bytes, decode: Decoder,
                  ss: seq<State>, es: seq<Event>)
    requires exponentOnly ==> shuffled
    requires Run(Task(MakeHeader(segmentKb, |input|, shuffled, exponentOnly), mask, input, decode), ss, es)
    requires AllReturned(ss[|es|].phases)
    ensures var t := Task(MakeHeader(segmentKb, |input|, shuffled, exponentOnly), mask, input, decode);
            && |ss[|es|].outs| == 1 && GoodBlock(t, ss[|es|].outs[0])
            && Restores(t, ss[|es|].outs[0])
  {
    var t := Task(MakeHeader(segmentKb, |input|, shuffled, exponentOnly), mask, input, decode);
    MadeHeadersAreValid(segmentKb, |input|, shuffled, exponentOnly);
    EveryRunMakesOneBlock(t, ss, es);
    var b := ss[|es|].outs[0];
    forall dst: Bytes, order: seq<Place> | |dst| == t.h.origSize && Complete(t, b, order)
      ensures PlaceAll(t.decode, b, dst, order) == Some(Masked(t.input, t.mask))
    {
      GoodBlockDecompresses(t, b, dst, order);
    }
  }

  // ---- the uncompressed path ----

  /** The block written when compression is off: every segment stored, the payload is the tensor itself. */
  function StoredBlock(segmentKb: nat, input: Bytes): Block {
    var h := MakeHeader(segmentKb, |input|, false, false);
    MadeHeadersAreValid(segmentKb, |input|, false, false);
    Block(h, seq(h.segments, k requires 0 <= k < h.segments =>
                   RegionFits(h, k); Entry(PayloadStart(h.segments) + Start(h, k), Length(h, k), true, false)), input)
  }

  lemma StoredBlockIsGood(segmentKb: nat, input: Bytes, decode: Decoder)
    ensures var b := StoredBlock(segmentKb, input);
            var t := Task(b.header, KEEP_ALL, input, decode); t.Valid() && Aligned(t.h) && GoodBlock(t, b)
  {
    var b := StoredBlock(segmentKb, input);
    var t := Task(b.header, KEEP_ALL, input, decode);
    MadeHeadersAreValid(segmentKb, |input|, false, false);
    forall k | 0 <= k < t.h.segments ensures GoodEntry(t, b, k) {
      RegionFits(t.h, k);
      FullMaskKeeps(Segment(t.h, input, k));
      assert b.table[k].offset - PayloadStart(t.h.segments) == Start(t.h, k);
    }
  }

  /** Decompressing it yields the input itself. */
  lemma StoredRoundTrip(segmentKb: nat, input: Bytes, decode: Decoder, dst: Bytes, order: seq<Place>)
    requires |dst| == |input|
    requires var b := StoredBlock(segmentKb, input);
             Complete(Task(b.header, KEEP_ALL, input, decode), b, order)
    ensures var b := StoredBlock(segmentKb, input);
            Valid(b.header) && b.header.origSize == |input| && PlaceAll(decode, b, dst, order) == Some(input)
  {
    var b := StoredBlock(segmentKb, input);
    StoredBlockIsGood(segmentKb, input, decode);
    GoodBlockDecompresses(Task(b.header, KEEP_ALL, input, decode), b, dst, order);
    FullMaskKeeps(input);
  }

  // ---- the buffer code behind Unprepare ----

  /** place: writes the segment from its head and tail with shuffle_copy, or copies it. */
  method PlaceInto(dst: array<Byte>, h: Header, head: Bytes, tail: Bytes)
    requires dst.Length == |head| + |tail|
    modifies dst
    ensures dst[..] == Unprepare(h, head, tail)
  {
    var s := head + tail;
    if h.shuffled {
      var half := |s| / 2;
      assert s[..half] + s[half..] == s;
      ShuffleCopy(dst, s[..half], s[half..], KEEP_ALL);
      FullMaskKeeps(s);
    } else {
      forall i | 0 <= i < |s| { dst[i] := s[i]; }
    }
  }
}
