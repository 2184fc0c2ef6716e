/** KVPool: a tensor cut into blocks along one dimension. Block b has one segment of inner bytes per index o of the outer
    dimensions; segment (b, o) is the (o * blocks + b)-th piece of `inner` bytes of the pool. Addresses are unbounded
    integers: the products fit the 64-bit arithmetic of the code for every pool that fits memory. */
module PoolGeometry {
  import opened Wrappers
  import Arith
  import opened RowCopy

  datatype Pool = Pool(base: nat, blocks: nat, outer: nat, inner: nat) {
    function Stride(): nat { inner }
    function OuterBytes(): nat { blocks * inner }
    function BlockBytes(): nat { outer * inner }
    function TotalBytes(): nat { outer * OuterBytes() }

    /** block_ptr */
    function BlockPtr(b: nat, o: nat): nat { base + o * OuterBytes() + b * Stride() }

    /** block_index */
    function BlockIndex(ptr: nat): nat
      requires ptr >= base && OuterBytes() > 0 && Stride() > 0
    {
      ((ptr - base) % OuterBytes()) / Stride()
    }
  }

  /** No dimension is zero. */
  predicate Solid(p: Pool) { p.blocks > 0 && p.outer > 0 && p.inner > 0 }

  // ---- make_kv_pool ----

  function Product(s: seq<nat>): nat { if s == [] then 1 else Product(s[..|s| - 1]) * s[|s| - 1] }

  /** The only geometry computation; None where the source aborts. */
  method MakePool(base: nat, shape: seq<nat>, elem: nat, dim: int) returns (r: Option<Pool>)
    ensures r.Some? <==> 0 <= dim < |shape|
    ensures r.Some? ==> r.value.base == base && r.value.blocks == shape[dim]
    ensures r.Some? ==> r.value.outer == Product(shape[..dim]) && r.value.inner == elem * Product(shape[dim + 1..])
    ensures r.Some? ==> r.value.TotalBytes() == elem * Product(shape)
  {
    if !(0 <= dim < |shape|) { return None; }
    var outer := Times(1, shape[..dim]);
    var inner := Times(elem, shape[dim + 1..]);
    Volume(shape, dim, elem);
    return Some(Pool(base, shape[dim], outer, inner));
  }

  /** x *= s[d] for every d. */
  method Times(x: nat, s: seq<nat>) returns (r: nat)
    ensures r == x * Product(s)
  {
    r := x;
    var d := 0;
    while d < |s|
      invariant 0 <= d <= |s| && r == x * Product(s[..d])
    {
      ProductStep(x, s[..d], s[d]);
      assert s[..d + 1] == s[..d] + [s[d]];
      r := r * s[d];
      d := d + 1;
    }
    assert s[..d] == s;
  }

  lemma ProductStep(elem: nat, s: seq<nat>, x: nat)
    ensures elem * Product(s + [x]) == elem * Product(s) * x
  {
    assert (s + [x])[..|s|] == s;
    Assoc(elem, Product(s), x);
  }

  lemma Assoc(a: nat, b: nat, c: nat)
    ensures a * (b * c) == a * b * c
  {
  }

  lemma {:induction false} ProductConcat(s: seq<nat>, t: seq<nat>)
    ensures Product(s + t) == Product(s) * Product(t)
  {
    if t == [] {
      assert s + t == s;
    } else {
      var init := t[..|t| - 1];
      ProductConcat(s, init);
      assert (s + t)[..|s + t| - 1] == s + init;
      Assoc(Product(s), Product(init), t[|t| - 1]);
    }
  }

  /** The bytes of the pool are those of the tensor. */
  lemma Volume(shape: seq<nat>, dim: nat, elem: nat)
    requires dim < |shape|
    ensures Product(shape[..dim]) * (shape[dim] * (elem * Product(shape[dim + 1..]))) == elem * Product(shape)
  {
    Factors(shape, dim);
    Shuffle(Product(shape[..dim]), shape[dim], elem, Product(shape[dim + 1..]));
  }

  lemma Factors(shape: seq<nat>, dim: nat)
    requires dim < |shape|
    ensures Product(shape) == Product(shape[..dim]) * (shape[dim] * Product(shape[dim + 1..]))
  {
    var tail := [shape[dim]] + shape[dim + 1..];
    assert shape == shape[..dim] + tail;
    ProductConcat(shape[..dim], tail);
    ProductFirst(shape[dim], shape[dim + 1..]);
  }

  lemma ProductFirst(n: nat, s: seq<nat>)
    ensures Product([n] + s) == n * Product(s)
  {
    ProductConcat([n], s);
    assert [n][..0] == [];
  }

  lemma Shuffle(a: nat, n: nat, e: nat, c: nat)
    ensures a * (n * (e * c)) == e * (a * (n * c))
  {
    Assoc(n, e, c);
    Assoc(e, n, c);
    assert n * e == e * n;
    assert n * (e * c) == e * (n * c);
    Assoc(a, e, n * c);
    Assoc(e, a, n * c);
    assert a * e == e * a;
  }

  // ---- segments ----

  /** The number of segment (b, o). */
  function Number(p: Pool, b: nat, o: nat): nat { o * p.blocks + b }

  lemma Distribute(o: nat, n: nat, b: nat, i: nat)
    ensures (o * n + b) * i == o * (n * i) + b * i
  {
    Assoc(o, n, i);
  }

  lemma PtrIsNumber(p: Pool, b: nat, o: nat)
    ensures p.BlockPtr(b, o) == p.base + Number(p, b, o) * p.inner
  {
    Distribute(o, p.blocks, b, p.inner);
  }

  lemma NumberInRange(p: Pool, b: nat, o: nat)
    requires b < p.blocks && o < p.outer
    ensures Number(p, b, o) < p.outer * p.blocks
  {
    Arith.MulLess(o, p.outer, p.blocks, b);
  }

  /** Segment numbers are unique. */
  lemma NumberUnique(p: Pool, b: nat, o: nat, b': nat, o': nat)
    requires b < p.blocks && b' < p.blocks && Number(p, b, o) == Number(p, b', o')
    ensures b == b' && o == o'
  {
    Arith.DivUnique(Number(p, b, o), p.blocks, o, b);
    Arith.DivUnique(Number(p, b, o), p.blocks, o', b');
  }

  /** The segments tile the pool: every byte offset is in exactly one of them, and none reaches outside. */
  lemma ByteOfSegment(p: Pool, x: nat) returns (b: nat, o: nat, k: nat)
    requires Solid(p) && x < p.TotalBytes()
    ensures b < p.blocks && o < p.outer && k < p.inner && p.base + x == p.BlockPtr(b, o) + k
  {
    Assoc(p.outer, p.blocks, p.inner);
    Arith.DivBelow(x, p.outer * p.blocks, p.inner);
    var q := x / p.inner;
    k := x % p.inner;
    Arith.DivBelow(q, p.outer, p.blocks);
    o, b := q / p.blocks, q % p.blocks;
    PtrIsNumber(p, b, o);
  }

  lemma SegmentInside(p: Pool, b: nat, o: nat, k: nat)
    requires b < p.blocks && o < p.outer && k < p.inner
    ensures p.base <= p.BlockPtr(b, o) + k < p.base + p.TotalBytes()
  {
    PtrIsNumber(p, b, o);
    NumberInRange(p, b, o);
    Arith.MulLess(Number(p, b, o), p.outer * p.blocks, p.inner, k);
    Assoc(p.outer, p.blocks, p.inner);
  }

  lemma SegmentsApart(p: Pool, b: nat, o: nat, k: nat, b': nat, o': nat, k': nat)
    requires b < p.blocks && b' < p.blocks && k < p.inner && k' < p.inner
    requires p.BlockPtr(b, o) + k == p.BlockPtr(b', o') + k'
    ensures b == b' && o == o' && k == k'
  {
    PtrIsNumber(p, b, o);
    PtrIsNumber(p, b', o');
    var x := Number(p, b, o) * p.inner + k;
    Arith.DivUnique(x, p.inner, Number(p, b, o), k);
    Arith.DivUnique(x, p.inner, Number(p, b', o'), k');
    NumberUnique(p, b, o, b', o');
  }

  /** block_index inverts block_ptr on every byte of every segment. */
  lemma BlockIndexInverts(p: Pool, b: nat, o: nat, k: nat)
    requires b < p.blocks && k < p.inner
    ensures p.OuterBytes() > 0 && p.BlockIndex(p.BlockPtr(b, o) + k) == b
  {
    Arith.MulLess(b, p.blocks, p.inner, k);
    Arith.DivUnique(o * p.OuterBytes() + (b * p.inner + k), p.OuterBytes(), o, b * p.inner + k);
    Arith.DivUnique(b * p.inner + k, p.inner, b, k);
  }

  // ---- the transports' byte moves ----

  /** What the CPU reference copy moves for one chunk: copy_chunk. */
  function ChunkMoves(p: Pool, chunk: nat, ptr: nat, n: nat): seq<Move> {
    if n == 0 then []
    else
      var o := n - 1;
      ChunkMoves(p, chunk, ptr, o) + [Move(p.base + chunk * p.Stride() + o * p.OuterBytes(), ptr + o * p.inner, p.inner)]
  }

  /** ... and for a batch of chunks: copy_chunks_batch. */
  function BatchMoves(p: Pool, chunks: seq<nat>, ptrs: seq<nat>): seq<Move>
    requires |chunks| == |ptrs|
  {
    if chunks == [] then []
    else
      var n := |chunks| - 1;
      BatchMoves(p, chunks[..n], ptrs[..n]) + ChunkMoves(p, chunks[n], ptrs[n], p.outer)
  }

  lemma BatchStep(p: Pool, chunks: seq<nat>, ptrs: seq<nat>, i: nat)
    requires |chunks| == |ptrs| && i < |chunks|
    ensures BatchMoves(p, chunks[..i + 1], ptrs[..i + 1])
         == BatchMoves(p, chunks[..i], ptrs[..i]) + ChunkMoves(p, chunks[i], ptrs[i], p.outer)
  {
    assert chunks[..i + 1][..i] == chunks[..i] && ptrs[..i + 1][..i] == ptrs[..i];
  }

  /** Columns of addresses as moves. */
  function Zip(pool: seq<nat>, scratch: seq<nat>, len: nat): seq<Move>
    requires |pool| == |scratch|
  {
    seq(|pool|, i requires 0 <= i < |pool| => Move(pool[i], scratch[i], len))
  }

  lemma ZipConcat(a: seq<nat>, b: seq<nat>, c: seq<nat>, d: seq<nat>, len: nat)
    requires |a| == |b| && |c| == |d|
    ensures Zip(a + c, b + d, len) == Zip(a, b, len) + Zip(c, d, len)
  {
  }

  /** The inner loop of dsa_copy_chunks_batch; bar is where the pool's base is mapped. */
  method ExpandChunk(p: Pool, bar: nat, chunk: nat, ptr: nat) returns (far: seq<nat>, near: seq<nat>)
    ensures |far| == |near| && Zip(far, near, p.inner) == ChunkMoves(p.(base := bar), chunk, ptr, p.outer)
  {
    far, near := [], [];
    var off, o := chunk * p.Stride(), 0;
    while o < p.outer
      invariant 0 <= o <= p.outer && |far| == |near| && Zip(far, near, p.inner) == ChunkMoves(p.(base := bar), chunk, ptr, o)
    {
      var a, b := bar + off + o * p.OuterBytes(), ptr + o * p.inner;
      ZipConcat(far, near, [a], [b], p.inner);
      far, near, o := far + [a], near + [b], o + 1;
    }
  }

  /** dsa_copy_chunks_batch: the address arrays it fills denote the reference moves on the pool as it is mapped at bar;
      h2d only decides which column is the destination. */
  method ExpandDsa(p: Pool, bar: nat, chunks: seq<nat>, ptrs: seq<nat>, h2d: bool) returns (dest: seq<nat>, src: seq<nat>)
    requires |chunks| == |ptrs|
    ensures |dest| == |src|
    ensures BatchMoves(p.(base := bar), chunks, ptrs) == if h2d then Zip(dest, src, p.inner) else Zip(src, dest, p.inner)
  {
    var far, near, i := [], [], 0;
    while i < |chunks|
      invariant 0 <= i <= |chunks| && |far| == |near|
      invariant Zip(far, near, p.inner) == BatchMoves(p.(base := bar), chunks[..i], ptrs[..i])
    {
      var a, b := ExpandChunk(p, bar, chunks[i], ptrs[i]);
      BatchStep(p.(base := bar), chunks, ptrs, i);
      ZipConcat(far, near, a, b, p.inner);
      far, near, i := far + a, near + b, i + 1;
    }
    assert chunks[..i] == chunks && ptrs[..i] == ptrs;
    if h2d { dest, src := far, near; } else { dest, src := near, far; }
  }

  // ---- RDMA descriptor lists ----

  datatype Desc = Desc(addr: nat, len: nat)

  /** on_register: the remote pool's list, one row of blocks per outer index. */
  method RemoteDescs(p: Pool) returns (descs: seq<Desc>)
    ensures |descs| == p.outer * p.blocks
    ensures forall b, o :: 0 <= b < p.blocks && 0 <= o < p.outer ==>
              Number(p, b, o) < |descs| && descs[Number(p, b, o)] == Desc(p.BlockPtr(b, o), p.inner)
  {
    descs := [];
    var o := 0;
    while o < p.outer
      invariant 0 <= o <= p.outer && |descs| == o * p.blocks && RowsDone(p, descs, o)
    {
      var row := DescRow(p, o);
      RowAdded(p, descs, row, o);
      descs, o := descs + row, o + 1;
    }
  }

  /** The rows below o are filled. */
  ghost predicate RowsDone(p: Pool, descs: seq<Desc>, n: nat) {
    forall b, o :: 0 <= b < p.blocks && 0 <= o < n ==>
      Number(p, b, o) < |descs| && descs[Number(p, b, o)] == Desc(p.BlockPtr(b, o), p.inner)
  }

  method DescRow(p: Pool, o: nat) returns (row: seq<Desc>)
    ensures |row| == p.blocks && forall b :: 0 <= b < p.blocks ==> row[b] == Desc(p.BlockPtr(b, o), p.inner)
  {
    row := [];
    var b := 0;
    while b < p.blocks
      invariant 0 <= b <= p.blocks && |row| == b
      invariant forall c :: 0 <= c < b ==> row[c] == Desc(p.BlockPtr(c, o), p.inner)
    {
      row, b := row + [Desc(p.BlockPtr(b, o), p.inner)], b + 1;
    }
  }

  lemma RowAdded(p: Pool, descs: seq<Desc>, row: seq<Desc>, n: nat)
    requires |descs| == n * p.blocks && RowsDone(p, descs, n)
    requires |row| == p.blocks && forall b :: 0 <= b < p.blocks ==> row[b] == Desc(p.BlockPtr(b, n), p.inner)
    ensures |descs + row| == (n + 1) * p.blocks && RowsDone(p, descs + row, n + 1)
  {
    Arith.MulStep(n, p.blocks);
    forall b, o | 0 <= b < p.blocks && 0 <= o < n + 1
      ensures Number(p, b, o) < |descs + row| && (descs + row)[Number(p, b, o)] == Desc(p.BlockPtr(b, o), p.inner)
    {
      if o == n { assert (descs + row)[n * p.blocks + b] == row[b]; }
    }
  }

  /** local_dlist: every block of the contiguous scratch pool split into the remote's segments. */
  method LocalDescs(local: Pool, remote: Pool) returns (descs: seq<Desc>)
    ensures |descs| == local.blocks * remote.outer
    ensures SplitsDone(local, remote, descs, local.blocks)
  {
    descs := [];
    var b := 0;
    while b < local.blocks
      invariant 0 <= b <= local.blocks && |descs| == b * remote.outer && SplitsDone(local, remote, descs, b)
    {
      var row := SplitRow(local, remote, b);
      SplitAdded(local, remote, descs, row, b);
      descs, b := descs + row, b + 1;
    }
  }

  function Part(local: Pool, remote: Pool, b: nat, o: nat): Desc { Desc(local.BlockPtr(b, 0) + o * remote.inner, remote.inner) }

  function PartNumber(remote: Pool, b: nat, o: nat): nat { b * remote.outer + o }

  ghost predicate SplitsDone(local: Pool, remote: Pool, descs: seq<Desc>, n: nat) {
    forall b, o :: 0 <= b < n && 0 <= o < remote.outer ==>
      PartNumber(remote, b, o) < |descs| && descs[PartNumber(remote, b, o)] == Part(local, remote, b, o)
  }

  method SplitRow(local: Pool, remote: Pool, b: nat) returns (row: seq<Desc>)
    ensures |row| == remote.outer && forall o :: 0 <= o < remote.outer ==> row[o] == Part(local, remote, b, o)
  {
    row := [];
    var o := 0;
    while o < remote.outer
      invariant 0 <= o <= remote.outer && |row| == o && forall q :: 0 <= q < o ==> row[q] == Part(local, remote, b, q)
    {
      row, o := row + [Part(local, remote, b, o)], o + 1;
    }
  }

  lemma SplitAdded(local: Pool, remote: Pool, descs: seq<Desc>, row: seq<Desc>, n: nat)
    requires |descs| == n * remote.outer && SplitsDone(local, remote, descs, n)
    requires |row| == remote.outer && forall o :: 0 <= o < remote.outer ==> row[o] == Part(local, remote, n, o)
    ensures |descs + row| == (n + 1) * remote.outer && SplitsDone(local, remote, descs + row, n + 1)
  {
    Arith.MulStep(n, remote.outer);
    forall b, o | 0 <= b < n + 1 && 0 <= o < remote.outer
      ensures PartNumber(remote, b, o) < |descs + row| && (descs + row)[PartNumber(remote, b, o)] == Part(local, remote, b, o)
    {
      if b == n { assert (descs + row)[n * remote.outer + o] == row[o]; }
    }
  }

  /** The index pairs of rdma::copy_chunks_batch for one chunk. */
  function ChunkPairs(local: Pool, remote: Pool, chunk: nat, ptr: nat, n: nat): seq<(nat, nat)>
    requires ptr >= local.base && Solid(local)
  {
    if n == 0 then []
    else
      var o := n - 1;
      ChunkPairs(local, remote, chunk, ptr, o) + [(PartNumber(remote, local.BlockIndex(ptr), o), Number(remote, chunk, o))]
  }

  /** The moves that index pairs denote through the two descriptor lists. */
  function PairMoves(locals: seq<Desc>, remotes: seq<Desc>, pairs: seq<(nat, nat)>): seq<Move>
    requires forall x :: x in pairs ==> x.0 < |locals| && x.1 < |remotes|
  {
    seq(|pairs|, i requires 0 <= i < |pairs| =>
      assert pairs[i] in pairs; Move(remotes[pairs[i].1].addr, locals[pairs[i].0].addr, remotes[pairs[i].1].len))
  }

  /** RDMA moves the same bytes as the reference copy, for any block of the scratch pool and any chunk of the remote
      pool. */
  lemma {:induction false} RdmaMovesAsCpu(local: Pool, remote: Pool, locals: seq<Desc>, remotes: seq<Desc>, chunk: nat, block: nat, n: nat)
    requires Solid(local) && local.outer == 1 && block < local.blocks && chunk < remote.blocks && n <= remote.outer
    requires SplitsDone(local, remote, locals, local.blocks) && RowsDone(remote, remotes, remote.outer)
    ensures local.BlockPtr(block, 0) >= local.base
    ensures var pairs := ChunkPairs(local, remote, chunk, local.BlockPtr(block, 0), n);
            && (forall x :: x in pairs ==> x.0 < |locals| && x.1 < |remotes|)
            && PairMoves(locals, remotes, pairs) == ChunkMoves(remote, chunk, local.BlockPtr(block, 0), n)
  {
    if n > 0 {
      var o, ptr := n - 1, local.BlockPtr(block, 0);
      RdmaMovesAsCpu(local, remote, locals, remotes, chunk, block, o);
      BlockIndexInverts(local, block, 0, 0);
      assert local.BlockIndex(ptr) == block;
      assert locals[PartNumber(remote, block, o)] == Part(local, remote, block, o);
      assert remotes[Number(remote, chunk, o)] == Desc(remote.BlockPtr(chunk, o), remote.inner);
    }
  }

  /** rdma::copy_chunks_batch for a whole batch. */
  function BatchPairs(local: Pool, remote: Pool, chunks: seq<nat>, ptrs: seq<nat>): seq<(nat, nat)>
    requires |chunks| == |ptrs| && Solid(local) && forall i :: 0 <= i < |ptrs| ==> ptrs[i] >= local.base
  {
    if chunks == [] then []
    else
      var n := |chunks| - 1;
      BatchPairs(local, remote, chunks[..n], ptrs[..n]) + ChunkPairs(local, remote, chunks[n], ptrs[n], remote.outer)
  }

  /** The loops that fill local_idx and remote_idx. */
  method IndexMaps(local: Pool, remote: Pool, chunks: seq<nat>, ptrs: seq<nat>) returns (pairs: seq<(nat, nat)>)
    requires |chunks| == |ptrs| && Solid(local) && forall i :: 0 <= i < |ptrs| ==> ptrs[i] >= local.base
    ensures pairs == BatchPairs(local, remote, chunks, ptrs)
  {
    pairs := [];
    var i := 0;
    while i < |chunks|
      invariant 0 <= i <= |chunks| && pairs == BatchPairs(local, remote, chunks[..i], ptrs[..i])
    {
      var lb, o := local.BlockIndex(ptrs[i]), 0;
      ghost var before := pairs;
      while o < remote.outer
        invariant 0 <= o <= remote.outer && pairs == before + ChunkPairs(local, remote, chunks[i], ptrs[i], o)
      {
        pairs, o := pairs + [(lb * remote.outer + o, o * remote.blocks + chunks[i])], o + 1;
      }
      assert chunks[..i + 1][..i] == chunks[..i] && ptrs[..i + 1][..i] == ptrs[..i];
      i := i + 1;
    }
    assert chunks[..i] == chunks && ptrs[..i] == ptrs;
  }

  ghost predicate Resolvable(locals: seq<Desc>, remotes: seq<Desc>, pairs: seq<(nat, nat)>) {
    forall x :: x in pairs ==> x.0 < |locals| && x.1 < |remotes|
  }

  lemma PairMovesConcat(locals: seq<Desc>, remotes: seq<Desc>, a: seq<(nat, nat)>, b: seq<(nat, nat)>)
    requires Resolvable(locals, remotes, a) && Resolvable(locals, remotes, b)
    ensures Resolvable(locals, remotes, a + b)
    ensures PairMoves(locals, remotes, a + b) == PairMoves(locals, remotes, a) + PairMoves(locals, remotes, b)
  {
  }

  /** Main result on RDMA: with the descriptor lists of the two pools, a batch of chunks and scratch blocks denotes the
      moves of the reference copy, in the same order. */
  lemma {:induction false} RdmaBatchMovesAsCpu(local: Pool, remote: Pool, locals: seq<Desc>, remotes: seq<Desc>,
                                               chunks: seq<nat>, blocks: seq<nat>, ptrs: seq<nat>)
    requires Solid(local) && local.outer == 1 && |chunks| == |blocks| == |ptrs|
    requires SplitsDone(local, remote, locals, local.blocks) && RowsDone(remote, remotes, remote.outer)
    requires forall i :: 0 <= i < |chunks| ==> chunks[i] < remote.blocks && blocks[i] < local.blocks
    requires forall i :: 0 <= i < |ptrs| ==> ptrs[i] == local.BlockPtr(blocks[i], 0)
    ensures forall i :: 0 <= i < |ptrs| ==> ptrs[i] >= local.base
    ensures Resolvable(locals, remotes, BatchPairs(local, remote, chunks, ptrs))
    ensures PairMoves(locals, remotes, BatchPairs(local, remote, chunks, ptrs)) == BatchMoves(remote, chunks, ptrs)
    decreases |chunks|
  {
    if chunks != [] {
      var n := |chunks| - 1;
      RdmaBatchMovesAsCpu(local, remote, locals, remotes, chunks[..n], blocks[..n], ptrs[..n]);
      RdmaMovesAsCpu(local, remote, locals, remotes, chunks[n], blocks[n], remote.outer);
      PairMovesConcat(locals, remotes, BatchPairs(local, remote, chunks[..n], ptrs[..n]),
                      ChunkPairs(local, remote, chunks[n], ptrs[n], remote.outer));
    }
  }
}
