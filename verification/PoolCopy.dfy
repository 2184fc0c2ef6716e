/** kv_xfer/cpu.cpp on the bytes themselves: gathering a block of a pool into a scratch buffer and scattering it back, and
    the effect of the moves that the transports make. The pool's base is index 0 of its array. copy_chunk skips the copy
    when both addresses are the same, which separate arrays never are. */
module PoolCopy {
  import opened PoolGeometry
  import opened Buffers
  import opened RowCopy
  import Arith

  /** Where segment (b, o) begins, from the base on. */
  function At(p: Pool, b: nat, o: nat): nat { b * p.Stride() + o * p.OuterBytes() }

  /** The segments of block b. */
  function Offs(p: Pool, b: nat): (r: seq<nat>)
    ensures |r| == p.outer
  {
    seq(p.outer, o requires 0 <= o < p.outer => At(p, b, o))
  }

  lemma AtIsNumber(p: Pool, b: nat, o: nat)
    ensures At(p, b, o) == Number(p, b, o) * p.inner
    ensures b < p.blocks && o < p.outer ==> At(p, b, o) + p.inner <= p.TotalBytes()
  {
    Distribute(o, p.blocks, b, p.inner);
    if b < p.blocks && o < p.outer {
      NumberInRange(p, b, o);
      Arith.MulMono(Number(p, b, o) + 1, p.outer * p.blocks, p.inner);
      Arith.MulStep(Number(p, b, o), p.inner);
      Assoc(p.outer, p.blocks, p.inner);
    }
  }

  lemma OffsFit(p: Pool, b: nat)
    requires b < p.blocks
    ensures Fits(Offs(p, b), p.inner, p.TotalBytes())
  {
    forall o | 0 <= o < p.outer ensures At(p, b, o) + p.inner <= p.TotalBytes() { AtIsNumber(p, b, o); }
  }

  lemma {:induction false} RowAtIs(inner: nat, n: nat)
    ensures RowAt(inner, n) == n * inner
  {
    if n > 0 {
      RowAtIs(inner, n - 1);
      Arith.MulStep(n - 1, inner);
    }
  }

  /** Different segments do not overlap. */
  lemma SegmentsClear(p: Pool, b: nat, o: nat, b': nat, o': nat)
    requires b < p.blocks && b' < p.blocks && (b, o) != (b', o')
    ensures Clear(At(p, b, o), At(p, b', o'), p.inner)
  {
    AtIsNumber(p, b, o);
    AtIsNumber(p, b', o');
    var q, q' := Number(p, b, o), Number(p, b', o');
    if q == q' { NumberUnique(p, b, o, b', o'); }
    Arith.MulStep(q, p.inner);
    Arith.MulStep(q', p.inner);
    if q < q' { Arith.MulMono(q + 1, q', p.inner); } else { Arith.MulMono(q' + 1, q, p.inner); }
  }

  lemma OffsApart(p: Pool, b: nat)
    requires b < p.blocks
    ensures Apart(Offs(p, b), p.inner)
  {
    forall i, j | 0 <= i < j < p.outer ensures Clear(At(p, b, i), At(p, b, j), p.inner) { SegmentsClear(p, b, i, b, j); }
  }

  // ---- blocks ----

  /** Block b as it lies in a scratch buffer: its segments one after the other. */
  ghost function Block(p: Pool, a: Bytes, b: nat): (r: Bytes)
    requires |a| == p.TotalBytes() && b < p.blocks
    ensures |r| == p.BlockBytes()
  {
    OffsFit(p, b);
    RowAtIs(p.inner, p.outer);
    Rows(a, Offs(p, b), p.inner, p.outer)
  }

  /** The pool with `block` written over block b. */
  ghost function Scattered(p: Pool, a: Bytes, b: nat, block: Bytes): (r: Bytes)
    requires |a| == p.TotalBytes() && b < p.blocks && |block| == p.BlockBytes()
    ensures |r| == |a|
  {
    OffsFit(p, b);
    RowAtIs(p.inner, p.outer);
    Spread(a, Offs(p, b), p.inner, block, p.outer)
  }

  // ---- the code ----

  method Memcpy(dst: array<Byte>, d: nat, src: array<Byte>, s: nat, len: nat)
    requires dst != src && d + len <= dst.Length && s + len <= src.Length
    modifies dst
    ensures dst[..] == Write(old(dst[..]), d, Slice(src[..], s, len))
  {
    var i := 0;
    while i < len
      invariant 0 <= i <= len
      invariant forall k :: d <= k < d + i ==> dst[k] == src[s + (k - d)]
      invariant forall k :: 0 <= k < dst.Length && (k < d || d + i <= k) ==> dst[k] == old(dst[k])
    {
      dst[d + i] := src[s + i];
      i := i + 1;
    }
  }

  /** The two pointers of copy_chunk for row o, as offsets into the buffers. */
  method Pointers(p: Pool, b: nat, o: nat, ghost offs: seq<nat>) returns (from: nat, row: nat)
    requires offs == Offs(p, b) && o < p.outer
    ensures from == offs[o] && row == RowAt(p.inner, o)
  {
    RowAtIs(p.inner, o);
    from, row := b * p.Stride() + o * p.OuterBytes(), o * p.inner;
  }

  /** copy_chunk to the scratch buffer: the block's segments arrive in order at s, nothing else changes. */
  method Gather(p: Pool, pool: array<Byte>, b: nat, scratch: array<Byte>, s: nat)
    requires pool != scratch && pool.Length == p.TotalBytes() && b < p.blocks && s + p.BlockBytes() <= scratch.Length
    modifies scratch
    ensures scratch[..] == Write(old(scratch[..]), s, Block(p, pool[..], b))
  {
    OffsFit(p, b);
    RowAtIs(p.inner, p.outer);
    GatherRows(p, pool, b, scratch, s, Offs(p, b));
  }

  method GatherRows(p: Pool, pool: array<Byte>, b: nat, scratch: array<Byte>, s: nat, ghost offs: seq<nat>)
    requires pool != scratch && offs == Offs(p, b) && Fits(offs, p.inner, pool.Length)
    requires s + RowAt(p.inner, |offs|) <= scratch.Length
    modifies scratch
    ensures Gathered(pool[..], offs, p.inner, |offs|, old(scratch[..]), s, scratch[..])
  {
    ghost var was := scratch[..];
    var o := 0;
    WriteNothing(was, s);
    while o < p.outer
      invariant 0 <= o <= p.outer && Gathered(pool[..], offs, p.inner, o, was, s, scratch[..])
    {
      var from, row := Pointers(p, b, o, offs);
      RowToScratch(pool, from, scratch, s + row, p.inner, offs, o, was, s);
      o := o + 1;
    }
  }

  method RowToScratch(pool: array<Byte>, from: nat, scratch: array<Byte>, to: nat, len: nat, ghost offs: seq<nat>, ghost o: nat,
                      ghost was: Bytes, ghost s: nat)
    requires pool != scratch && Fits(offs, len, pool.Length) && o < |offs| && from == offs[o] && to == s + RowAt(len, o)
    requires s + RowAt(len, |offs|) <= |was| && Gathered(pool[..], offs, len, o, was, s, scratch[..])
    modifies scratch
    ensures Gathered(pool[..], offs, len, o + 1, was, s, scratch[..])
  {
    ghost var a := pool[..];
    GatherStep(a, offs, len, o, was, s, scratch[..]);
    Memcpy(scratch, to, pool, from, len);
    assert pool[..] == a;
  }

  /** copy_chunk from the scratch buffer. */
  method Scatter(p: Pool, pool: array<Byte>, b: nat, scratch: array<Byte>, s: nat)
    requires pool != scratch && pool.Length == p.TotalBytes() && b < p.blocks && s + p.BlockBytes() <= scratch.Length
    modifies pool
    ensures pool[..] == Scattered(p, old(pool[..]), b, Slice(scratch[..], s, p.BlockBytes()))
  {
    OffsFit(p, b);
    RowAtIs(p.inner, p.outer);
    ScatterRows(p, pool, b, scratch, s, Offs(p, b), Slice(scratch[..], s, p.BlockBytes()));
  }

  method ScatterRows(p: Pool, pool: array<Byte>, b: nat, scratch: array<Byte>, s: nat, ghost offs: seq<nat>, ghost block: Bytes)
    requires pool != scratch && offs == Offs(p, b) && Fits(offs, p.inner, pool.Length)
    requires |block| == RowAt(p.inner, |offs|) && s + |block| <= scratch.Length && block == Slice(scratch[..], s, |block|)
    modifies pool
    ensures pool[..] == Spread(old(pool[..]), offs, p.inner, block, |offs|)
  {
    ghost var was := pool[..];
    var o := 0;
    while o < p.outer
      invariant 0 <= o <= p.outer && pool[..] == Spread(was, offs, p.inner, block, o)
    {
      var to, row := Pointers(p, b, o, offs);
      RowToPool(pool, to, scratch, s, row, p.inner, offs, o, was, block);
      o := o + 1;
    }
  }

  method RowToPool(pool: array<Byte>, to: nat, scratch: array<Byte>, s: nat, row: nat, len: nat, ghost offs: seq<nat>, ghost o: nat,
                   ghost was: Bytes, ghost block: Bytes)
    requires pool != scratch && Fits(offs, len, |was|) && o < |offs| && to == offs[o] && row == RowAt(len, o)
    requires |block| == RowAt(len, |offs|) && s + |block| <= scratch.Length && block == Slice(scratch[..], s, |block|)
    requires pool[..] == Spread(was, offs, len, block, o)
    modifies pool
    ensures pool[..] == Spread(was, offs, len, block, o + 1)
  {
    assert pool.Length == |pool[..]| == |was|;
    RowAtRises(len, o, |offs|);
    SliceOfSlice(scratch[..], s, |block|, row, len);
    Memcpy(pool, to, scratch, s + row, len);
  }

  // ---- what the copies mean for the blocks ----

  /** Gathering after a scatter gives back what was scattered. */
  lemma GatherScattered(p: Pool, a: Bytes, b: nat, block: Bytes)
    requires |a| == p.TotalBytes() && b < p.blocks && |block| == p.BlockBytes()
    ensures Block(p, Scattered(p, a, b, block), b) == block
  {
    OffsFit(p, b);
    OffsApart(p, b);
    RowAtIs(p.inner, p.outer);
    RowsOfSpread(a, Offs(p, b), p.inner, block, p.outer);
  }

  /** A scatter touches no other block. */
  lemma OtherBlocksKept(p: Pool, a: Bytes, b: nat, block: Bytes, b': nat)
    requires |a| == p.TotalBytes() && b < p.blocks && b' < p.blocks && b' != b && |block| == p.BlockBytes()
    ensures Block(p, Scattered(p, a, b, block), b') == Block(p, a, b')
  {
    OffsFit(p, b);
    OffsFit(p, b');
    RowAtIs(p.inner, p.outer);
    var a', offs' := Scattered(p, a, b, block), Offs(p, b');
    forall o | 0 <= o < |offs'| ensures Slice(a', offs'[o], p.inner) == Slice(a, offs'[o], p.inner) {
      forall i | 0 <= i < p.outer ensures Clear(Offs(p, b)[i], offs'[o], p.inner) { SegmentsClear(p, b, i, b', o); }
      SpreadElsewhere(a, Offs(p, b), p.inner, block, p.outer, offs'[o]);
    }
    RowsAgree(a', a, offs', p.inner, p.outer);
  }

  /** Gather, then scatter: the whole pool is as it was. */
  lemma GatherScatterRestores(p: Pool, a: Bytes, b: nat)
    requires |a| == p.TotalBytes() && b < p.blocks
    ensures Scattered(p, a, b, Block(p, a, b)) == a
  {
    OffsFit(p, b);
    SpreadRows(a, Offs(p, b), p.inner, p.outer);
  }

  // ---- the moves of the transports, on bytes ----

  /** The reference moves of a chunk are one move per segment. */
  lemma {:induction false} ChunkRows(p: Pool, b: nat, ptr: nat, n: nat)
    requires n <= p.outer
    ensures ChunkMoves(p, b, ptr, n) == RowMoves(p.base, Offs(p, b), p.inner, ptr, n)
  {
    if n > 0 {
      ChunkRows(p, b, ptr, n - 1);
      RowAtIs(p.inner, n - 1);
      assert Offs(p, b)[n - 1] == At(p, b, n - 1);
    }
  }

  /** A chunk and its place in the scratch buffer at address `near`. */
  ghost predicate ChunkFits(p: Pool, a: Bytes, b: nat, ptr: nat, near: nat, small: nat) {
    |a| == p.TotalBytes() && b < p.blocks && near <= ptr && ptr - near + p.BlockBytes() <= small
  }

  /** Executing the reference moves of a chunk towards the scratch buffer is Gather. */
  lemma MovesAreGather(p: Pool, a: Bytes, b: nat, ptr: nat, near: nat, scratch: Bytes)
    requires ChunkFits(p, a, b, ptr, near, |scratch|)
    ensures AllInside(ChunkMoves(p, b, ptr, p.outer), p.base, |a|, near, |scratch|)
    ensures ExecOut(ChunkMoves(p, b, ptr, p.outer), p.base, a, near, scratch) == Write(scratch, ptr - near, Block(p, a, b))
  {
    OffsFit(p, b);
    RowAtIs(p.inner, p.outer);
    ChunkRows(p, b, ptr, p.outer);
    MovesGather(p.base, a, Offs(p, b), p.inner, ptr, p.outer, near, scratch);
  }

  /** ... and towards the pool it is Scatter. */
  lemma MovesAreScatter(p: Pool, a: Bytes, b: nat, ptr: nat, near: nat, scratch: Bytes)
    requires ChunkFits(p, a, b, ptr, near, |scratch|)
    ensures AllInside(ChunkMoves(p, b, ptr, p.outer), p.base, |a|, near, |scratch|)
    ensures ExecIn(ChunkMoves(p, b, ptr, p.outer), p.base, a, near, scratch)
         == Scattered(p, a, b, Slice(scratch, ptr - near, p.BlockBytes()))
  {
    OffsFit(p, b);
    RowAtIs(p.inner, p.outer);
    ChunkRows(p, b, ptr, p.outer);
    MovesSpread(p.base, a, Offs(p, b), p.inner, ptr, p.outer, near, scratch, Slice(scratch, ptr - near, p.BlockBytes()));
  }

  ghost predicate BatchFits(p: Pool, a: Bytes, chunks: seq<nat>, ptrs: seq<nat>, near: nat, small: nat) {
    |chunks| == |ptrs| && |a| == p.TotalBytes() && forall i :: 0 <= i < |chunks| ==> ChunkFits(p, a, chunks[i], ptrs[i], near, small)
  }

  /** The moves of a batch stay inside the buffers. */
  lemma {:induction false} BatchInside(p: Pool, a: Bytes, chunks: seq<nat>, ptrs: seq<nat>, n: nat, near: nat, small: nat)
    requires BatchFits(p, a, chunks, ptrs, near, small) && n <= |chunks|
    ensures AllInside(BatchMoves(p, chunks[..n], ptrs[..n]), p.base, |a|, near, small)
  {
    if n > 0 {
      BatchInside(p, a, chunks, ptrs, n - 1, near, small);
      BatchStep(p, chunks, ptrs, n - 1);
      assert ChunkFits(p, a, chunks[n - 1], ptrs[n - 1], near, small);
      ChunkInside(p, a, chunks[n - 1], ptrs[n - 1], near, small);
    }
  }

  lemma ChunkInside(p: Pool, a: Bytes, b: nat, ptr: nat, near: nat, small: nat)
    requires ChunkFits(p, a, b, ptr, near, small)
    ensures AllInside(ChunkMoves(p, b, ptr, p.outer), p.base, |a|, near, small)
  {
    OffsFit(p, b);
    RowAtIs(p.inner, p.outer);
    ChunkRows(p, b, ptr, p.outer);
    RowsInside(p.base, Offs(p, b), p.inner, ptr, p.outer, |a|, near, small);
  }

  /** Any moves followed by those of a chunk: the effect of the former and then Gather. */
  lemma GatherNext(p: Pool, a: Bytes, b: nat, ptr: nat, near: nat, scratch: Bytes, ms: seq<Move>, done: Bytes)
    requires ChunkFits(p, a, b, ptr, near, |scratch|) && AllInside(ms, p.base, |a|, near, |scratch|)
    requires ExecOut(ms, p.base, a, near, scratch) == done
    ensures |done| == |scratch| && AllInside(ms + ChunkMoves(p, b, ptr, p.outer), p.base, |a|, near, |scratch|)
    ensures ExecOut(ms + ChunkMoves(p, b, ptr, p.outer), p.base, a, near, scratch) == Write(done, ptr - near, Block(p, a, b))
  {
    MovesAreGather(p, a, b, ptr, near, done);
    ExecOutConcat(ms, ChunkMoves(p, b, ptr, p.outer), p.base, a, near, scratch);
  }

  /** In the other direction: the effect of the former and then Scatter. */
  lemma ScatterNext(p: Pool, a: Bytes, b: nat, ptr: nat, near: nat, scratch: Bytes, ms: seq<Move>, done: Bytes)
    requires ChunkFits(p, a, b, ptr, near, |scratch|) && AllInside(ms, p.base, |a|, near, |scratch|)
    requires ExecIn(ms, p.base, a, near, scratch) == done
    ensures |done| == |a| && AllInside(ms + ChunkMoves(p, b, ptr, p.outer), p.base, |a|, near, |scratch|)
    ensures ExecIn(ms + ChunkMoves(p, b, ptr, p.outer), p.base, a, near, scratch)
         == Scattered(p, done, b, Slice(scratch, ptr - near, p.BlockBytes()))
  {
    MovesAreScatter(p, done, b, ptr, near, scratch);
    ExecInConcat(ms, ChunkMoves(p, b, ptr, p.outer), p.base, a, near, scratch);
  }

  // ---- a whole batch ----

  /** The scratch buffer after the first n chunks of a batch were copied out. */
  ghost function CopiedOut(p: Pool, a: Bytes, chunks: seq<nat>, ptrs: seq<nat>, n: nat, near: nat, scratch: Bytes): (r: Bytes)
    requires BatchFits(p, a, chunks, ptrs, near, |scratch|) && n <= |chunks|
    ensures |r| == |scratch|
  {
    BatchInside(p, a, chunks, ptrs, n, near, |scratch|);
    ExecOut(BatchMoves(p, chunks[..n], ptrs[..n]), p.base, a, near, scratch)
  }

  /** The pool after the first n chunks of a batch were copied in. */
  ghost function CopiedIn(p: Pool, a: Bytes, chunks: seq<nat>, ptrs: seq<nat>, n: nat, near: nat, scratch: Bytes): (r: Bytes)
    requires BatchFits(p, a, chunks, ptrs, near, |scratch|) && n <= |chunks|
    ensures |r| == |a|
  {
    BatchInside(p, a, chunks, ptrs, n, near, |scratch|);
    ExecIn(BatchMoves(p, chunks[..n], ptrs[..n]), p.base, a, near, scratch)
  }

  /** Executing the moves of a batch gathers its chunks one after the other: with one more chunk, the effect is that of the
      batch followed by Gather. The DSA arrays (ExpandDsa) and the RDMA index pairs (RdmaBatchMovesAsCpu) denote this list
      of moves, so this is their effect on the bytes too. */
  lemma BatchGathers(p: Pool, a: Bytes, chunks: seq<nat>, ptrs: seq<nat>, n: nat, near: nat, scratch: Bytes)
    requires BatchFits(p, a, chunks, ptrs, near, |scratch|) && n < |chunks|
    ensures ChunkFits(p, a, chunks[n], ptrs[n], near, |scratch|)
    ensures CopiedOut(p, a, chunks, ptrs, n + 1, near, scratch)
         == Write(CopiedOut(p, a, chunks, ptrs, n, near, scratch), ptrs[n] - near, Block(p, a, chunks[n]))
  {
    BatchInside(p, a, chunks, ptrs, n, near, |scratch|);
    BatchStep(p, chunks, ptrs, n);
    assert ChunkFits(p, a, chunks[n], ptrs[n], near, |scratch|);
    GatherNext(p, a, chunks[n], ptrs[n], near, scratch, BatchMoves(p, chunks[..n], ptrs[..n]),
               CopiedOut(p, a, chunks, ptrs, n, near, scratch));
  }

  /** Two addresses apart are two offsets apart. */
  lemma ReadApart(data: Bytes, x: nat, y: nat, near: nat, bytes: Bytes)
    requires near <= x && near <= y && Clear(x, y, |bytes|) && x - near + |bytes| <= |data| && y - near + |bytes| <= |data|
    ensures Slice(Write(data, y - near, bytes), x - near, |bytes|) == Slice(data, x - near, |bytes|)
  {
    ReadElsewhere(data, y - near, bytes, x - near, |bytes|);
  }

  /** In the other direction with one more chunk, the effect is that of the batch followed by Scatter. */
  lemma BatchScatters(p: Pool, a: Bytes, chunks: seq<nat>, ptrs: seq<nat>, n: nat, near: nat, scratch: Bytes)
    requires BatchFits(p, a, chunks, ptrs, near, |scratch|) && n < |chunks|
    ensures ChunkFits(p, a, chunks[n], ptrs[n], near, |scratch|)
    ensures CopiedIn(p, a, chunks, ptrs, n + 1, near, scratch)
         == Scattered(p, CopiedIn(p, a, chunks, ptrs, n, near, scratch), chunks[n], Slice(scratch, ptrs[n] - near, p.BlockBytes()))
  {
    BatchInside(p, a, chunks, ptrs, n, near, |scratch|);
    BatchStep(p, chunks, ptrs, n);
    assert ChunkFits(p, a, chunks[n], ptrs[n], near, |scratch|);
    ScatterNext(p, a, chunks[n], ptrs[n], near, scratch, BatchMoves(p, chunks[..n], ptrs[..n]),
                CopiedIn(p, a, chunks, ptrs, n, near, scratch));
  }

  ghost predicate Distinct(chunks: seq<nat>) { forall i, j :: 0 <= i < j < |chunks| ==> chunks[i] != chunks[j] }

  /** After a batch towards scratch blocks that do not overlap, each of them holds its chunk. */
  lemma {:induction false} BatchGathered(p: Pool, a: Bytes, chunks: seq<nat>, ptrs: seq<nat>, n: nat, near: nat, scratch: Bytes, i: nat)
    requires BatchFits(p, a, chunks, ptrs, near, |scratch|) && i < n <= |chunks| && Apart(ptrs, p.BlockBytes())
    ensures ChunkFits(p, a, chunks[i], ptrs[i], near, |scratch|)
    ensures Slice(CopiedOut(p, a, chunks, ptrs, n, near, scratch), ptrs[i] - near, p.BlockBytes()) == Block(p, a, chunks[i])
  {
    assert ChunkFits(p, a, chunks[i], ptrs[i], near, |scratch|);
    var before := CopiedOut(p, a, chunks, ptrs, n - 1, near, scratch);
    BatchGathers(p, a, chunks, ptrs, n - 1, near, scratch);
    if i == n - 1 {
      ReadWritten(before, ptrs[i] - near, Block(p, a, chunks[i]));
    } else {
      BatchGathered(p, a, chunks, ptrs, n - 1, near, scratch, i);
      ReadApart(before, ptrs[i], ptrs[n - 1], near, Block(p, a, chunks[n - 1]));
    }
  }

  /** It leaves every range of the scratch buffer alone that overlaps none of them. */
  lemma {:induction false} BatchGathersNothingElse(p: Pool, a: Bytes, chunks: seq<nat>, ptrs: seq<nat>, n: nat, near: nat,
                                                   scratch: Bytes, at: nat, len: nat)
    requires BatchFits(p, a, chunks, ptrs, near, |scratch|) && n <= |chunks| && at + len <= |scratch|
    requires forall i :: 0 <= i < n ==> at + len <= ptrs[i] - near || ptrs[i] - near + p.BlockBytes() <= at
    ensures Slice(CopiedOut(p, a, chunks, ptrs, n, near, scratch), at, len) == Slice(scratch, at, len)
  {
    if n > 0 {
      BatchGathersNothingElse(p, a, chunks, ptrs, n - 1, near, scratch, at, len);
      BatchGathers(p, a, chunks, ptrs, n - 1, near, scratch);
      ReadElsewhere(CopiedOut(p, a, chunks, ptrs, n - 1, near, scratch), ptrs[n - 1] - near, Block(p, a, chunks[n - 1]), at, len);
    }
  }

  /** A batch towards the pool leaves every block alone that is not one of its chunks. */
  lemma {:induction false} BatchScattersNothingElse(p: Pool, a: Bytes, chunks: seq<nat>, ptrs: seq<nat>, n: nat, near: nat,
                                                    scratch: Bytes, b: nat)
    requires BatchFits(p, a, chunks, ptrs, near, |scratch|) && n <= |chunks| && b < p.blocks && b !in chunks[..n]
    ensures Block(p, CopiedIn(p, a, chunks, ptrs, n, near, scratch), b) == Block(p, a, b)
  {
    if n > 0 {
      assert chunks[..n][n - 1] == chunks[n - 1] && chunks[..n - 1] == chunks[..n][..n - 1];
      BatchScattersNothingElse(p, a, chunks, ptrs, n - 1, near, scratch, b);
      BatchScatters(p, a, chunks, ptrs, n - 1, near, scratch);
      OtherBlocksKept(p, CopiedIn(p, a, chunks, ptrs, n - 1, near, scratch), chunks[n - 1],
                      Slice(scratch, ptrs[n - 1] - near, p.BlockBytes()), b);
    }
  }

  /** After it every chunk, named once, holds its scratch block. */
  lemma {:induction false} BatchScattered(p: Pool, a: Bytes, chunks: seq<nat>, ptrs: seq<nat>, n: nat, near: nat, scratch: Bytes, i: nat)
    requires BatchFits(p, a, chunks, ptrs, near, |scratch|) && i < n <= |chunks| && Distinct(chunks)
    ensures ChunkFits(p, a, chunks[i], ptrs[i], near, |scratch|)
    ensures Block(p, CopiedIn(p, a, chunks, ptrs, n, near, scratch), chunks[i]) == Slice(scratch, ptrs[i] - near, p.BlockBytes())
  {
    assert ChunkFits(p, a, chunks[i], ptrs[i], near, |scratch|);
    var before, block := CopiedIn(p, a, chunks, ptrs, n - 1, near, scratch), Slice(scratch, ptrs[n - 1] - near, p.BlockBytes());
    BatchScatters(p, a, chunks, ptrs, n - 1, near, scratch);
    if i == n - 1 {
      GatherScattered(p, before, chunks[i], block);
    } else {
      BatchScattered(p, a, chunks, ptrs, n - 1, near, scratch, i);
      OtherBlocksKept(p, before, chunks[n - 1], block, chunks[i]);
    }
  }

  /** A batch copied out of one pool and into another of the same shape, or back into the same one later: its chunks arrive
      and every other block stays. */
  lemma BatchCarries(p: Pool, a: Bytes, a': Bytes, chunks: seq<nat>, ptrs: seq<nat>, near: nat, scratch: Bytes, b: nat)
    requires BatchFits(p, a, chunks, ptrs, near, |scratch|) && BatchFits(p, a', chunks, ptrs, near, |scratch|)
    requires Distinct(chunks) && Apart(ptrs, p.BlockBytes()) && b < p.blocks
    ensures var out := CopiedOut(p, a, chunks, ptrs, |chunks|, near, scratch);
            Block(p, CopiedIn(p, a', chunks, ptrs, |chunks|, near, out), b) == Block(p, if b in chunks then a else a', b)
  {
    var n, out := |chunks|, CopiedOut(p, a, chunks, ptrs, |chunks|, near, scratch);
    if b in chunks {
      var i :| 0 <= i < n && chunks[i] == b;
      BatchGathered(p, a, chunks, ptrs, n, near, scratch, i);
      BatchScattered(p, a', chunks, ptrs, n, near, out, i);
    } else {
      assert chunks[..n] == chunks;
      BatchScattersNothingElse(p, a', chunks, ptrs, n, near, out, b);
    }
  }
}
