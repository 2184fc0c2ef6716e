/** Copying rows of equal length between a large buffer, where row o lies at offs[o], and a small one, where the rows lie
    one after the other; and executing lists of moves between two buffers. */
module RowCopy {
  import opened Buffers

  /** Where row n begins when rows of `inner` bytes follow each other. */
  function RowAt(inner: nat, n: nat): nat { if n == 0 then 0 else RowAt(inner, n - 1) + inner }

  lemma {:induction false} RowAtRises(inner: nat, m: nat, n: nat)
    requires m <= n
    ensures RowAt(inner, m) <= RowAt(inner, n) && (m < n ==> RowAt(inner, m) + inner <= RowAt(inner, n))
  {
    if m < n { RowAtRises(inner, m, n - 1); }
  }

  ghost predicate Fits(offs: seq<nat>, inner: nat, size: nat) { forall o :: 0 <= o < |offs| ==> offs[o] + inner <= size }

  predicate Clear(x: nat, y: nat, inner: nat) { x + inner <= y || y + inner <= x }

  /** No two rows overlap. */
  ghost predicate Apart(offs: seq<nat>, inner: nat) {
    forall i, j :: 0 <= i < j < |offs| ==> Clear(offs[i], offs[j], inner)
  }

  /** The first n rows, one after the other. */
  ghost function Rows(a: Bytes, offs: seq<nat>, inner: nat, n: nat): (r: Bytes)
    requires Fits(offs, inner, |a|) && n <= |offs|
    ensures |r| == RowAt(inner, n)
  {
    if n == 0 then [] else Rows(a, offs, inner, n - 1) + Slice(a, offs[n - 1], inner)
  }

  /** Row o of a block whose rows follow each other. */
  function Row(block: Bytes, inner: nat, o: nat): Bytes
    requires RowAt(inner, o) + inner <= |block|
  {
    Slice(block, RowAt(inner, o), inner)
  }

  /** The large buffer after the first n rows of `block` were written to their places. */
  ghost function Spread(a: Bytes, offs: seq<nat>, inner: nat, block: Bytes, n: nat): (r: Bytes)
    requires Fits(offs, inner, |a|) && n <= |offs| && RowAt(inner, |offs|) <= |block|
    ensures |r| == |a|
  {
    if n == 0 then a
    else
      RowAtRises(inner, n - 1, |offs|);
      Write(Spread(a, offs, inner, block, n - 1), offs[n - 1], Row(block, inner, n - 1))
  }

  lemma WriteTwice(a: Bytes, at: nat, x: Bytes, y: Bytes)
    requires at + |x| + |y| <= |a|
    ensures Write(Write(a, at, x), at + |x|, y) == Write(a, at, x + y)
  {
  }

  lemma WriteNothing(a: Bytes, at: nat)
    requires at <= |a|
    ensures Write(a, at, []) == a
  {
  }

  lemma WriteBack(a: Bytes, at: nat, len: nat)
    requires at + len <= |a|
    ensures Write(a, at, Slice(a, at, len)) == a
  {
  }

  lemma SliceOfSlice(a: Bytes, s: nat, n: nat, at: nat, len: nat)
    requires s + n <= |a| && at + len <= n
    ensures Slice(Slice(a, s, n), at, len) == Slice(a, s + at, len)
  {
    var x, y := Slice(Slice(a, s, n), at, len), Slice(a, s + at, len);
    forall i | 0 <= i < len ensures x[i] == y[i] { assert x[i] == Slice(a, s, n)[at + i] == a[s + at + i]; }
  }

  lemma SliceOfFirst(x: Bytes, y: Bytes, at: nat, len: nat)
    requires at + len <= |x|
    ensures Slice(x + y, at, len) == Slice(x, at, len)
  {
  }

  /** The small buffer `was` with the first n rows at s. */
  ghost predicate Gathered(a: Bytes, offs: seq<nat>, inner: nat, n: nat, was: Bytes, s: nat, now: Bytes)
    requires Fits(offs, inner, |a|) && n <= |offs|
  {
    s + RowAt(inner, n) <= |was| && now == Write(was, s, Rows(a, offs, inner, n))
  }

  lemma GatherStep(a: Bytes, offs: seq<nat>, inner: nat, o: nat, was: Bytes, s: nat, now: Bytes)
    requires Fits(offs, inner, |a|) && o < |offs| && Gathered(a, offs, inner, o, was, s, now)
    requires s + RowAt(inner, |offs|) <= |was|
    ensures s + RowAt(inner, o) + inner <= |now| == |was|
    ensures Gathered(a, offs, inner, o + 1, was, s, Write(now, s + RowAt(inner, o), Slice(a, offs[o], inner)))
  {
    RowAtRises(inner, o, |offs|);
    WriteTwice(was, s, Rows(a, offs, inner, o), Slice(a, offs[o], inner));
  }

  // ---- what spreading does ----

  /** A range clear of all rows is untouched. */
  lemma {:induction false} SpreadElsewhere(a: Bytes, offs: seq<nat>, inner: nat, block: Bytes, n: nat, from: nat)
    requires Fits(offs, inner, |a|) && n <= |offs| && RowAt(inner, |offs|) <= |block| && from + inner <= |a|
    requires forall o :: 0 <= o < n ==> Clear(offs[o], from, inner)
    ensures Slice(Spread(a, offs, inner, block, n), from, inner) == Slice(a, from, inner)
  {
    if n > 0 {
      SpreadElsewhere(a, offs, inner, block, n - 1, from);
      RowAtRises(inner, n - 1, |offs|);
      assert Clear(offs[n - 1], from, inner);
      ReadElsewhere(Spread(a, offs, inner, block, n - 1), offs[n - 1], Row(block, inner, n - 1), from, inner);
    }
  }

  /** Every row written holds the block's row. */
  lemma {:induction false} SpreadHere(a: Bytes, offs: seq<nat>, inner: nat, block: Bytes, n: nat, o: nat)
    requires Fits(offs, inner, |a|) && Apart(offs, inner) && o < n <= |offs| && RowAt(inner, |offs|) <= |block|
    ensures RowAt(inner, o) + inner <= |block|
    ensures Slice(Spread(a, offs, inner, block, n), offs[o], inner) == Row(block, inner, o)
  {
    RowAtRises(inner, o, |offs|);
    RowAtRises(inner, n - 1, |offs|);
    var before := Spread(a, offs, inner, block, n - 1);
    if o == n - 1 {
      ReadWritten(before, offs[o], Row(block, inner, o));
    } else {
      SpreadHere(a, offs, inner, block, n - 1, o);
      assert Clear(offs[o], offs[n - 1], inner);
      ReadElsewhere(before, offs[n - 1], Row(block, inner, n - 1), offs[o], inner);
    }
  }

  /** Reading the rows after spreading a block gives the block. */
  lemma {:induction false} RowsOfSpread(a: Bytes, offs: seq<nat>, inner: nat, block: Bytes, n: nat)
    requires Fits(offs, inner, |a|) && Apart(offs, inner) && n <= |offs| && |block| == RowAt(inner, |offs|)
    ensures RowAt(inner, n) <= |block|
    ensures Rows(Spread(a, offs, inner, block, |offs|), offs, inner, n) == block[..RowAt(inner, n)]
  {
    RowAtRises(inner, n, |offs|);
    if n > 0 {
      RowsOfSpread(a, offs, inner, block, n - 1);
      SpreadHere(a, offs, inner, block, |offs|, n - 1);
      PrefixRow(block, inner, n - 1);
    }
  }

  lemma PrefixRow(block: Bytes, inner: nat, o: nat)
    requires RowAt(inner, o) + inner <= |block|
    ensures block[..RowAt(inner, o)] + Row(block, inner, o) == block[..RowAt(inner, o + 1)]
  {
  }

  lemma {:induction false} RowsAgree(a: Bytes, b: Bytes, offs: seq<nat>, inner: nat, n: nat)
    requires Fits(offs, inner, |a|) && |a| == |b| && n <= |offs|
    requires forall o :: 0 <= o < |offs| ==> Slice(a, offs[o], inner) == Slice(b, offs[o], inner)
    ensures Rows(a, offs, inner, n) == Rows(b, offs, inner, n)
  {
    if n > 0 { RowsAgree(a, b, offs, inner, n - 1); }
  }

  lemma {:induction false} RowOfRows(a: Bytes, offs: seq<nat>, inner: nat, n: nat, o: nat)
    requires Fits(offs, inner, |a|) && o < n <= |offs|
    ensures RowAt(inner, o) + inner <= RowAt(inner, n)
    ensures Row(Rows(a, offs, inner, n), inner, o) == Slice(a, offs[o], inner)
  {
    RowAtRises(inner, o, n);
    if o < n - 1 {
      RowOfRows(a, offs, inner, n - 1, o);
      SliceOfFirst(Rows(a, offs, inner, n - 1), Slice(a, offs[n - 1], inner), RowAt(inner, o), inner);
    }
  }

  /** Spreading what was read changes nothing. */
  lemma {:induction false} SpreadRows(a: Bytes, offs: seq<nat>, inner: nat, n: nat)
    requires Fits(offs, inner, |a|) && n <= |offs|
    ensures Spread(a, offs, inner, Rows(a, offs, inner, |offs|), n) == a
  {
    if n > 0 {
      SpreadRows(a, offs, inner, n - 1);
      RowOfRows(a, offs, inner, |offs|, n - 1);
      WriteBack(a, offs[n - 1], inner);
    }
  }

  // ---- moves ----

  /** `len` bytes between the pool and the scratch buffer, by address. */
  datatype Move = Move(pool: nat, scratch: nat, len: nat)

  /** The move lies inside the two buffers: `big` bytes at address `pool` and `small` bytes at address `near`. */
  predicate Inside(m: Move, pool: nat, big: nat, near: nat, small: nat) {
    pool <= m.pool && m.pool - pool + m.len <= big && near <= m.scratch && m.scratch - near + m.len <= small
  }

  ghost predicate AllInside(ms: seq<Move>, pool: nat, big: nat, near: nat, small: nat) {
    forall i :: 0 <= i < |ms| ==> Inside(ms[i], pool, big, near, small)
  }

  function MoveOut(m: Move, pool: nat, a: Bytes, near: nat, scratch: Bytes): (r: Bytes)
    requires Inside(m, pool, |a|, near, |scratch|)
    ensures |r| == |scratch|
  {
    Write(scratch, m.scratch - near, Slice(a, m.pool - pool, m.len))
  }

  function MoveIn(m: Move, pool: nat, a: Bytes, near: nat, scratch: Bytes): (r: Bytes)
    requires Inside(m, pool, |a|, near, |scratch|)
    ensures |r| == |a|
  {
    Write(a, m.pool - pool, Slice(scratch, m.scratch - near, m.len))
  }

  /** Executing the moves one after the other from the pool to the scratch buffer. */
  ghost function ExecOut(ms: seq<Move>, pool: nat, a: Bytes, near: nat, scratch: Bytes): (r: Bytes)
    requires AllInside(ms, pool, |a|, near, |scratch|)
    ensures |r| == |scratch|
  {
    if ms == [] then scratch
    else MoveOut(ms[|ms| - 1], pool, a, near, ExecOut(ms[..|ms| - 1], pool, a, near, scratch))
  }

  /** ... and from the scratch buffer to the pool. */
  ghost function ExecIn(ms: seq<Move>, pool: nat, a: Bytes, near: nat, scratch: Bytes): (r: Bytes)
    requires AllInside(ms, pool, |a|, near, |scratch|)
    ensures |r| == |a|
  {
    if ms == [] then a
    else MoveIn(ms[|ms| - 1], pool, ExecIn(ms[..|ms| - 1], pool, a, near, scratch), near, scratch)
  }

  lemma ExecOutLast(ms: seq<Move>, m: Move, pool: nat, a: Bytes, near: nat, scratch: Bytes)
    requires AllInside(ms, pool, |a|, near, |scratch|) && Inside(m, pool, |a|, near, |scratch|)
    ensures AllInside(ms + [m], pool, |a|, near, |scratch|)
    ensures ExecOut(ms + [m], pool, a, near, scratch) == MoveOut(m, pool, a, near, ExecOut(ms, pool, a, near, scratch))
  {
    assert (ms + [m])[..|ms|] == ms && (ms + [m])[|ms|] == m;
  }

  lemma ExecInLast(ms: seq<Move>, m: Move, pool: nat, a: Bytes, near: nat, scratch: Bytes)
    requires AllInside(ms, pool, |a|, near, |scratch|) && Inside(m, pool, |a|, near, |scratch|)
    ensures AllInside(ms + [m], pool, |a|, near, |scratch|)
    ensures ExecIn(ms + [m], pool, a, near, scratch) == MoveIn(m, pool, ExecIn(ms, pool, a, near, scratch), near, scratch)
  {
    assert (ms + [m])[..|ms|] == ms && (ms + [m])[|ms|] == m;
  }

  lemma {:induction false} ExecOutConcat(ms: seq<Move>, ns: seq<Move>, pool: nat, a: Bytes, near: nat, scratch: Bytes)
    requires AllInside(ms, pool, |a|, near, |scratch|) && AllInside(ns, pool, |a|, near, |scratch|)
    ensures AllInside(ms + ns, pool, |a|, near, |scratch|)
    ensures ExecOut(ms + ns, pool, a, near, scratch) == ExecOut(ns, pool, a, near, ExecOut(ms, pool, a, near, scratch))
    decreases |ns|
  {
    if ns == [] {
      assert ms + ns == ms;
    } else {
      var front, m := ns[..|ns| - 1], ns[|ns| - 1];
      ExecOutConcat(ms, front, pool, a, near, scratch);
      assert ms + ns == (ms + front) + [m];
      ExecOutLast(ms + front, m, pool, a, near, scratch);
    }
  }

  lemma {:induction false} ExecInConcat(ms: seq<Move>, ns: seq<Move>, pool: nat, a: Bytes, near: nat, scratch: Bytes)
    requires AllInside(ms, pool, |a|, near, |scratch|) && AllInside(ns, pool, |a|, near, |scratch|)
    ensures AllInside(ms + ns, pool, |a|, near, |scratch|)
    ensures ExecIn(ms + ns, pool, a, near, scratch) == ExecIn(ns, pool, ExecIn(ms, pool, a, near, scratch), near, scratch)
    decreases |ns|
  {
    if ns == [] {
      assert ms + ns == ms;
    } else {
      var front, m := ns[..|ns| - 1], ns[|ns| - 1];
      ExecInConcat(ms, front, pool, a, near, scratch);
      assert ms + ns == (ms + front) + [m];
      ExecInLast(ms + front, m, pool, a, near, scratch);
    }
  }

  /** One move per row, between base + offs[o] and ptr + the start of row o. */
  function RowMove(base: nat, offs: seq<nat>, inner: nat, ptr: nat, o: nat): Move
    requires o < |offs|
  {
    Move(base + offs[o], ptr + RowAt(inner, o), inner)
  }

  function RowMoves(base: nat, offs: seq<nat>, inner: nat, ptr: nat, n: nat): seq<Move>
    requires n <= |offs|
  {
    if n == 0 then [] else RowMoves(base, offs, inner, ptr, n - 1) + [RowMove(base, offs, inner, ptr, n - 1)]
  }

  lemma RowInside(base: nat, offs: seq<nat>, inner: nat, ptr: nat, o: nat, big: nat, near: nat, small: nat)
    requires Fits(offs, inner, big) && o < |offs| && near <= ptr && ptr - near + RowAt(inner, |offs|) <= small
    ensures Inside(RowMove(base, offs, inner, ptr, o), base, big, near, small)
  {
    RowAtRises(inner, o, |offs|);
  }

  lemma {:induction false} RowsInside(base: nat, offs: seq<nat>, inner: nat, ptr: nat, n: nat, big: nat, near: nat, small: nat)
    requires Fits(offs, inner, big) && n <= |offs| && near <= ptr && ptr - near + RowAt(inner, |offs|) <= small
    ensures AllInside(RowMoves(base, offs, inner, ptr, n), base, big, near, small)
  {
    if n > 0 {
      RowsInside(base, offs, inner, ptr, n - 1, big, near, small);
      RowInside(base, offs, inner, ptr, n - 1, big, near, small);
    }
  }

  /** Executing the moves of the rows gathers them. */
  lemma {:induction false} MovesGather(base: nat, a: Bytes, offs: seq<nat>, inner: nat, ptr: nat, n: nat, near: nat, scratch: Bytes)
    requires Fits(offs, inner, |a|) && n <= |offs| && near <= ptr && ptr - near + RowAt(inner, |offs|) <= |scratch|
    ensures AllInside(RowMoves(base, offs, inner, ptr, n), base, |a|, near, |scratch|)
    ensures Gathered(a, offs, inner, n, scratch, ptr - near,
                     ExecOut(RowMoves(base, offs, inner, ptr, n), base, a, near, scratch))
  {
    RowsInside(base, offs, inner, ptr, n, |a|, near, |scratch|);
    if n == 0 {
      WriteNothing(scratch, ptr - near);
    } else {
      MovesGather(base, a, offs, inner, ptr, n - 1, near, scratch);
      var ms := RowMoves(base, offs, inner, ptr, n - 1);
      RowInside(base, offs, inner, ptr, n - 1, |a|, near, |scratch|);
      var x := ExecOut(ms, base, a, near, scratch);
      OneMoreOut(ms, RowMove(base, offs, inner, ptr, n - 1), base, a, near, scratch, x);
      RowOut(base, a, offs, inner, ptr, n - 1, near, scratch, x);
    }
  }

  lemma RowOut(base: nat, a: Bytes, offs: seq<nat>, inner: nat, ptr: nat, o: nat, near: nat, was: Bytes, now: Bytes)
    requires Fits(offs, inner, |a|) && o < |offs| && near <= ptr && ptr - near + RowAt(inner, |offs|) <= |was| == |now|
    requires Gathered(a, offs, inner, o, was, ptr - near, now)
    ensures Inside(RowMove(base, offs, inner, ptr, o), base, |a|, near, |now|)
    ensures Gathered(a, offs, inner, o + 1, was, ptr - near, MoveOut(RowMove(base, offs, inner, ptr, o), base, a, near, now))
  {
    var m, at := RowMove(base, offs, inner, ptr, o), ptr - near;
    RowInside(base, offs, inner, ptr, o, |a|, near, |now|);
    GatherStep(a, offs, inner, o, was, at, now);
    MoveIsRow(m, base, a, near, now, offs, inner, o, was, at);
  }

  lemma MoveIsRow(m: Move, base: nat, a: Bytes, near: nat, now: Bytes, offs: seq<nat>, inner: nat, o: nat, was: Bytes, at: nat)
    requires Fits(offs, inner, |a|) && o < |offs| && Inside(m, base, |a|, near, |now|)
    requires m == Move(base + offs[o], near + at + RowAt(inner, o), inner) && at + RowAt(inner, o) + inner <= |now|
    requires Gathered(a, offs, inner, o + 1, was, at, Write(now, at + RowAt(inner, o), Slice(a, offs[o], inner)))
    ensures Gathered(a, offs, inner, o + 1, was, at, MoveOut(m, base, a, near, now))
  {
    OffsetOf(m, base, a, near, now, offs[o], at + RowAt(inner, o), inner);
  }

  /** A move by address, as a write by offset. */
  lemma OffsetOf(m: Move, pool: nat, a: Bytes, near: nat, scratch: Bytes, from: nat, to: nat, len: nat)
    requires Inside(m, pool, |a|, near, |scratch|) && m == Move(pool + from, near + to, len)
    ensures from + len <= |a| && to + len <= |scratch| && MoveOut(m, pool, a, near, scratch) == Write(scratch, to, Slice(a, from, len))
  {
  }

  lemma RowIn(base: nat, a: Bytes, offs: seq<nat>, inner: nat, ptr: nat, o: nat, near: nat, scratch: Bytes, block: Bytes)
    requires Fits(offs, inner, |a|) && o < |offs| && near <= ptr && ptr - near + |block| <= |scratch|
    requires |block| == RowAt(inner, |offs|) && block == Slice(scratch, ptr - near, |block|)
    ensures Inside(RowMove(base, offs, inner, ptr, o), base, |a|, near, |scratch|)
    ensures MoveIn(RowMove(base, offs, inner, ptr, o), base, Spread(a, offs, inner, block, o), near, scratch)
         == Spread(a, offs, inner, block, o + 1)
  {
    RowInside(base, offs, inner, ptr, o, |a|, near, |scratch|);
    RowAtRises(inner, o, |offs|);
    SliceOfSlice(scratch, ptr - near, |block|, RowAt(inner, o), inner);
  }

  /** Executing them in the other direction spreads the block that lies at ptr. */
  lemma {:induction false} MovesSpread(base: nat, a: Bytes, offs: seq<nat>, inner: nat, ptr: nat, n: nat, near: nat,
                                       scratch: Bytes, block: Bytes)
    requires Fits(offs, inner, |a|) && n <= |offs| && near <= ptr && ptr - near + |block| <= |scratch|
    requires |block| == RowAt(inner, |offs|) && block == Slice(scratch, ptr - near, |block|)
    ensures AllInside(RowMoves(base, offs, inner, ptr, n), base, |a|, near, |scratch|)
    ensures ExecIn(RowMoves(base, offs, inner, ptr, n), base, a, near, scratch) == Spread(a, offs, inner, block, n)
  {
    if n > 0 {
      MovesSpread(base, a, offs, inner, ptr, n - 1, near, scratch, block);
      SpreadStep(base, a, offs, inner, ptr, n - 1, near, scratch, block, RowMoves(base, offs, inner, ptr, n - 1));
    }
  }

  lemma SpreadStep(base: nat, a: Bytes, offs: seq<nat>, inner: nat, ptr: nat, o: nat, near: nat, scratch: Bytes, block: Bytes, ms: seq<Move>)
    requires Fits(offs, inner, |a|) && o < |offs| && near <= ptr && ptr - near + |block| <= |scratch|
    requires |block| == RowAt(inner, |offs|) && block == Slice(scratch, ptr - near, |block|)
    requires AllInside(ms, base, |a|, near, |scratch|) && ExecIn(ms, base, a, near, scratch) == Spread(a, offs, inner, block, o)
    ensures AllInside(ms + [RowMove(base, offs, inner, ptr, o)], base, |a|, near, |scratch|)
    ensures ExecIn(ms + [RowMove(base, offs, inner, ptr, o)], base, a, near, scratch) == Spread(a, offs, inner, block, o + 1)
  {
    RowIn(base, a, offs, inner, ptr, o, near, scratch, block);
    OneMoreIn(ms, RowMove(base, offs, inner, ptr, o), base, a, near, scratch,
              Spread(a, offs, inner, block, o), Spread(a, offs, inner, block, o + 1));
  }

  lemma OneMoreIn(ms: seq<Move>, m: Move, pool: nat, a: Bytes, near: nat, scratch: Bytes, x: Bytes, y: Bytes)
    requires AllInside(ms, pool, |a|, near, |scratch|) && Inside(m, pool, |a|, near, |scratch|)
    requires ExecIn(ms, pool, a, near, scratch) == x && |x| == |a| && MoveIn(m, pool, x, near, scratch) == y
    ensures AllInside(ms + [m], pool, |a|, near, |scratch|) && ExecIn(ms + [m], pool, a, near, scratch) == y
  {
    ExecInLast(ms, m, pool, a, near, scratch);
  }

  lemma OneMoreOut(ms: seq<Move>, m: Move, pool: nat, a: Bytes, near: nat, scratch: Bytes, x: Bytes)
    requires AllInside(ms, pool, |a|, near, |scratch|) && Inside(m, pool, |a|, near, |scratch|)
    requires ExecOut(ms, pool, a, near, scratch) == x
    ensures AllInside(ms + [m], pool, |a|, near, |scratch|)
    ensures |x| == |scratch| && ExecOut(ms + [m], pool, a, near, scratch) == MoveOut(m, pool, a, near, x)
  {
    ExecOutLast(ms, m, pool, a, near, scratch);
  }
}
