/** The byte transforms applied to a segment before compression: the lossy mask, and the
    byte shuffle that gathers the high bytes of 16-bit elements in the first half. */
module DataShuffle {
  import opened Buffers

  /** Bitwise AND of two non-negative values. */
  function And(x: int, y: int): (r: int)
    ensures 0 <= r && (0 <= x ==> r <= x) && (0 <= y ==> r <= y)
  {
    if x <= 0 || y <= 0 then 0
    else 2 * And(x / 2, y / 2) + (if x % 2 == 1 && y % 2 == 1 then 1 else 0)
  }

  /** A 16-bit word at any byte offset; `lo` is the byte at the lower address. ANDing two words ANDs their bytes,
      and the shifts of the code move whole bytes between words. */
  datatype Word = Word(lo: Byte, hi: Byte) {
    function Masked(m: Word): Word { Word(And(lo, m.lo), And(hi, m.hi)) }
    function Swapped(): Word { Word(hi, lo) }
  }

  const KEEP_ALL := Word(255, 255)

  function Pow2(k: nat): (p: int)
    ensures p > 0
  {
    if k == 0 then 1 else 2 * Pow2(k - 1)
  }

  lemma AndUnfold(x: int, y: int)
    requires 0 <= x && 0 <= y
    ensures And(x, y) == 2 * And(x / 2, y / 2) + (if x % 2 == 1 && y % 2 == 1 then 1 else 0)
  {
  }

  lemma {:induction false} AndIdempotent(x: int, m: int)
    requires 0 <= x
    ensures And(And(x, m), m) == And(x, m)
    decreases x
  {
    if x > 0 && m > 0 {
      AndIdempotent(x / 2, m / 2);
      AndUnfold(And(x, m), m);
    }
  }

  lemma {:induction false} AndKeeps(x: int, k: nat)
    requires 0 <= x < Pow2(k)
    ensures And(x, Pow2(k) - 1) == x
  {
    if k > 0 {
      AndKeeps(x / 2, k - 1);
      AndUnfold(x, Pow2(k) - 1);
      assert (Pow2(k) - 1) / 2 == Pow2(k - 1) - 1;
    }
  }

  function Bit(x: int, k: nat): bool
    decreases k
  {
    if k == 0 then x % 2 == 1 else Bit(x / 2, k - 1)
  }

  /** A bit is set in the result exactly if it is set in both. */
  lemma {:induction false} AndBits(x: int, y: int, k: nat)
    requires 0 <= x && 0 <= y
    ensures Bit(And(x, y), k) <==> Bit(x, k) && Bit(y, k)
  {
    AndUnfold(x, y);
    if k > 0 { AndBits(x / 2, y / 2, k - 1); }
  }

  /** The mask byte that applies at byte offset `o` of a tensor. */
  function MaskAt(mask: Word, o: nat): Byte { if o % 2 == 1 then mask.hi else mask.lo }

  /** Every byte of `s` ANDed with the mask byte of its offset. */
  function Masked(s: Bytes, mask: Word): (r: Bytes)
    ensures |r| == |s|
  {
    seq(|s|, i requires 0 <= i < |s| => And(s[i], MaskAt(mask, i)))
  }

  /** Where byte `o` of a shuffled buffer of `size` bytes comes from. */
  function Source(size: nat, o: nat): (src: nat)
    requires o < size
    ensures src < size
  {
    var half, n := size / 2, size / 4;
    if o < 2 * n && o % 2 == 0 then half + o + 1
    else if half <= o < half + 2 * n && (o - half) % 2 == 1 then o - half - 1
    else o
  }

  /** The shuffled form of `s`. */
  function Shuffled(s: Bytes): (r: Bytes)
    ensures |r| == |s|
  {
    seq(|s|, o requires 0 <= o < |s| => s[Source(|s|, o)])
  }

  lemma SourceInvolutive(size: nat, o: nat)
    requires o < size
    ensures Source(size, Source(size, o)) == o
  {
  }

  /** Shuffling twice restores the input. */
  lemma ShuffleInvolutive(s: Bytes)
    ensures Shuffled(Shuffled(s)) == s
  {
    forall o | 0 <= o < |s| ensures Shuffled(Shuffled(s))[o] == s[o] {
      SourceInvolutive(|s|, o);
    }
  }

  /** The persisted byte order: the word loop exchanges the first byte of word i of the first half with the second byte of
      word i of the second half, every other byte stays. */
  lemma ShuffledBytes(s: Bytes, i: nat, o: nat)
    requires i < |s| / 4 && o < |s|
    ensures var half := |s| / 2;
            && Shuffled(s)[2 * i] == s[half + 2 * i + 1] && Shuffled(s)[2 * i + 1] == s[2 * i + 1]
            && Shuffled(s)[half + 2 * i] == s[half + 2 * i] && Shuffled(s)[half + 2 * i + 1] == s[2 * i]
            && (2 * (|s| / 4) <= o < half || half + 2 * (|s| / 4) <= o ==> Shuffled(s)[o] == s[o])
  {
    var half := |s| / 2;
    assert Source(|s|, 2 * i) == half + 2 * i + 1 && Source(|s|, half + 2 * i + 1) == 2 * i;
    assert Source(|s|, 2 * i + 1) == 2 * i + 1 && Source(|s|, half + 2 * i) == half + 2 * i;
  }

  /** The mask's bytes alternate, the first one at even offsets; each bit is kept exactly if the mask has it. */
  lemma MaskedBits(s: Bytes, mask: Word, o: nat, k: nat)
    requires o < |s|
    ensures Bit(Masked(s, mask)[o], k) <==> Bit(s[o], k) && Bit(if o % 2 == 0 then mask.lo else mask.hi, k)
  {
    AndBits(s[o], MaskAt(mask, o), k);
  }

  /** Masking what was already masked changes nothing: storing a loaded block again loses no more bits. */
  lemma MaskIdempotent(s: Bytes, mask: Word)
    ensures Masked(Masked(s, mask), mask) == Masked(s, mask)
  {
    forall i | 0 <= i < |s| ensures Masked(Masked(s, mask), mask)[i] == Masked(s, mask)[i] {
      AndIdempotent(s[i], MaskAt(mask, i));
    }
  }

  /** The all-ones mask keeps every byte. */
  lemma FullMaskKeeps(s: Bytes)
    ensures Masked(s, KEEP_ALL) == s
  {
    assert Pow2(3) == 8 && Pow2(6) == 64;
    assert Pow2(8) == 256;
    forall i | 0 <= i < |s| ensures Masked(s, KEEP_ALL)[i] == s[i] {
      AndKeeps(s[i], 8);
    }
  }

  /** The first half of a shuffled buffer holds only high (odd-offset) bytes in the places the word loop fills
      exactly when that half is even: with an odd half every word of the second half straddles two elements. */
  lemma HighBytesFirst(size: nat)
    ensures (forall o :: 0 <= o < 2 * (size / 4) ==> Source(size, o) % 2 == 1)
            <==> (size / 2 % 2 == 0 || size < 4)
  {
    var half, n := size / 2, size / 4;
    if n > 0 && half % 2 == 1 {
      assert 0 < 2 * n && Source(size, 0) == half + 1;
    }
  }

  /** Copies `src` to dst with every 16-bit word ANDed with `mask`. */
  method MaskedCopy(dst: array<Byte>, src: Bytes, mask: Word)
    requires dst.Length == |src|
    modifies dst
    ensures dst[..] == Masked(src, mask)
  {
    if mask == KEEP_ALL {
      forall i | 0 <= i < |src| { dst[i] := src[i]; }
      FullMaskKeeps(src);
      return;
    }
    for i := 0 to |src| / 2
      invariant forall p :: 0 <= p < 2 * i ==> dst[p] == And(src[p], MaskAt(mask, p))
    {
      var w := Word(src[2 * i], src[2 * i + 1]).Masked(mask);
      dst[2 * i], dst[2 * i + 1] := w.lo, w.hi;
    }
    if |src| % 2 == 1 {
      dst[|src| - 1] := And(src[|src| - 1], mask.lo);
    }
  }

  /** The two halves of a buffer as shuffle_copy splits it. */
  ghost predicate Halves(a: Bytes, b: Bytes) { |a| <= |b| <= |a| + 1 }

  /** What round i of the word loop has to leave in the destination. */
  ghost predicate Round(want: Bytes, a: Bytes, b: Bytes, mask: Word, maskB: Word, i: nat)
    requires 2 * i + 1 < |a| && 2 * i + 1 < |b| && |want| == |a| + |b|
  {
    && want[2 * i] == And(b[2 * i + 1], maskB.hi)
    && want[2 * i + 1] == And(a[2 * i + 1], mask.hi)
    && want[|a| + 2 * i] == And(b[2 * i], maskB.lo)
    && want[|a| + 2 * i + 1] == And(a[2 * i], mask.lo)
  }

  lemma ShuffledAt(s: Bytes, mask: Word, o: nat)
    requires o < |s|
    ensures Shuffled(Masked(s, mask))[o] == And(s[Source(|s|, o)], MaskAt(mask, Source(|s|, o)))
  {
  }

  lemma SourceOfWords(size: nat, i: nat)
    requires 4 * i + 3 < size
    ensures var half := size / 2;
            && Source(size, 2 * i) == half + 2 * i + 1 && Source(size, 2 * i + 1) == 2 * i + 1
            && Source(size, half + 2 * i) == half + 2 * i && Source(size, half + 2 * i + 1) == 2 * i
  {
    var half, n := size / 2, size / 4;
    assert i < n && 2 * n <= half;
    assert (half + 2 * i - half) % 2 == 0 && (half + 2 * i + 1 - half) % 2 == 1;
  }

  /** The mask seen from the second half, whose offsets start at `half`. */
  lemma MaskOfSecondHalf(mask: Word, half: nat, k: nat)
    ensures MaskAt(mask, half + k) == MaskAt(if half % 2 == 1 then mask.Swapped() else mask, k)
  {
  }

  lemma RoundOf(a: Bytes, b: Bytes, mask: Word, maskB: Word, i: nat)
    requires Halves(a, b) && 2 * i + 1 < |a|
    requires maskB == if |a| % 2 == 1 then mask.Swapped() else mask
    ensures Round(Shuffled(Masked(a + b, mask)), a, b, mask, maskB, i)
  {
    var s, half := a + b, |a|;
    assert |s| / 2 == half;
    SourceOfWords(|s|, i);
    WantedFromA(a, b, mask, 2 * i + 1, 2 * i + 1);
    WantedFromA(a, b, mask, half + 2 * i + 1, 2 * i);
    WantedFromB(a, b, mask, 2 * i, 2 * i + 1);
    WantedFromB(a, b, mask, half + 2 * i, 2 * i);
  }

  lemma WantedFromA(a: Bytes, b: Bytes, mask: Word, o: nat, k: nat)
    requires o < |a| + |b| && k < |a| && Source(|a| + |b|, o) == k
    ensures Shuffled(Masked(a + b, mask))[o] == And(a[k], MaskAt(mask, k))
  {
    ShuffledAt(a + b, mask, o);
  }

  lemma WantedFromB(a: Bytes, b: Bytes, mask: Word, o: nat, k: nat)
    requires o < |a| + |b| && k < |b| && Source(|a| + |b|, o) == |a| + k
    ensures Shuffled(Masked(a + b, mask))[o] == And(b[k], MaskAt(if |a| % 2 == 1 then mask.Swapped() else mask, k))
  {
    ShuffledAt(a + b, mask, o);
    MaskOfSecondHalf(mask, |a|, k);
  }

  /** The word loop of shuffle_copy; the words written are (x & 0xFF00) | (y >> 8) and (y & 0x00FF) | (x << 8). */
  method MixHalves(dst: array<Byte>, a: Bytes, b: Bytes, n: nat, mask: Word, maskB: Word, ghost want: Bytes)
    requires dst.Length == |want| == |a| + |b| && 2 * n <= |a| <= |b|
    requires forall i :: 0 <= i < n ==> Round(want, a, b, mask, maskB, i)
    modifies dst
    ensures forall p :: 0 <= p < 2 * n || |a| <= p < |a| + 2 * n ==> dst[p] == want[p]
  {
    var half := |a|;
    for i := 0 to n
      invariant forall p :: 0 <= p < 2 * i || half <= p < half + 2 * i ==> dst[p] == want[p]
    {
      assert Round(want, a, b, mask, maskB, i);
      var x := Word(a[2 * i], a[2 * i + 1]).Masked(mask);
      var y := Word(b[2 * i], b[2 * i + 1]).Masked(maskB);
      var da, db := Word(y.hi, x.hi), Word(y.lo, x.lo);
      dst[2 * i], dst[2 * i + 1] := da.lo, da.hi;
      dst[half + 2 * i], dst[half + 2 * i + 1] := db.lo, db.hi;
    }
  }

  /** The bytes the word loop leaves in place, offsets `from` to `to` of the half that starts at `base`. */
  method CopyInPlace(dst: array<Byte>, part: Bytes, base: nat, from: nat, to: nat, mask: Word, ghost want: Bytes)
    requires from <= to <= |part| && base + |part| <= dst.Length == |want|
    requires forall o :: from <= o < to ==> want[base + o] == And(part[o], MaskAt(mask, base + o))
    modifies dst
    ensures forall p :: base + from <= p < base + to ==> dst[p] == want[p]
    ensures forall p :: 0 <= p < base + from || base + to <= p < dst.Length ==> dst[p] == old(dst[p])
  {
    for o := from to to
      invariant forall p :: base + from <= p < base + o ==> dst[p] == want[p]
      invariant forall p :: 0 <= p < base + from || base + to <= p < dst.Length ==> dst[p] == old(dst[p])
    {
      dst[base + o] := And(part[o], MaskAt(mask, base + o));
    }
  }

  lemma SourceOfTail(size: nat, o: nat)
    requires size / 4 * 2 <= o < size / 2 || size / 2 + size / 4 * 2 <= o < size
    ensures Source(size, o) == o
  {
  }

  lemma TailOf(a: Bytes, b: Bytes, mask: Word, n: nat)
    requires Halves(a, b) && n == (|a| + |b|) / 4
    ensures var want := Shuffled(Masked(a + b, mask));
            && (forall o :: 2 * n <= o < |a| ==> want[0 + o] == And(a[o], MaskAt(mask, 0 + o)))
            && (forall o :: 2 * n <= o < |b| ==> want[|a| + o] == And(b[o], MaskAt(mask, |a| + o)))
  {
    forall o | 2 * n <= o < |a|
      ensures Shuffled(Masked(a + b, mask))[0 + o] == And(a[o], MaskAt(mask, 0 + o))
    {
      SourceOfTail(|a + b|, o);
      WantedFromA(a, b, mask, o, o);
    }
    forall o | 2 * n <= o < |b|
      ensures Shuffled(Masked(a + b, mask))[|a| + o] == And(b[o], MaskAt(mask, |a| + o))
    {
      SourceOfTail(|a + b|, |a| + o);
      MaskOfSecondHalf(mask, |a|, o);
      WantedFromB(a, b, mask, |a| + o, o);
    }
  }

  lemma RoundsOf(a: Bytes, b: Bytes, mask: Word, maskB: Word, n: nat)
    requires Halves(a, b) && 2 * n <= |a|
    requires maskB == if |a| % 2 == 1 then mask.Swapped() else mask
    ensures forall i :: 0 <= i < n ==> Round(Shuffled(Masked(a + b, mask)), a, b, mask, maskB, i)
  {
    forall i | 0 <= i < n ensures Round(Shuffled(Masked(a + b, mask)), a, b, mask, maskB, i) {
      RoundOf(a, b, mask, maskB, i);
    }
  }

  /** Copies the buffer a + b (its first half and the rest) to dst, masked and shuffled. */
  method ShuffleCopy(dst: array<Byte>, a: Bytes, b: Bytes, mask: Word)
    requires dst.Length == |a| + |b| && Halves(a, b)
    modifies dst
    ensures dst[..] == Shuffled(Masked(a + b, mask))
  {
    var half, n := (|a| + |b|) / 2, (|a| + |b|) / 4;
    assert half == |a| && 2 * n <= half;
    var maskB := if half % 2 == 1 then mask.Swapped() else mask;
    RoundsOf(a, b, mask, maskB, n);
    TailOf(a, b, mask, n);
    CopyParts(dst, a, b, n, mask, maskB, Shuffled(Masked(a + b, mask)));
  }

  method CopyParts(dst: array<Byte>, a: Bytes, b: Bytes, n: nat, mask: Word, maskB: Word, ghost want: Bytes)
    requires dst.Length == |want| == |a| + |b| && 2 * n <= |a| <= |b|
    requires forall i :: 0 <= i < n ==> Round(want, a, b, mask, maskB, i)
    requires forall o :: 2 * n <= o < |a| ==> want[0 + o] == And(a[o], MaskAt(mask, 0 + o))
    requires forall o :: 2 * n <= o < |b| ==> want[|a| + o] == And(b[o], MaskAt(mask, |a| + o))
    modifies dst
    ensures dst[..] == want
  {
    MixHalves(dst, a, b, n, mask, maskB, want);
    CopyInPlace(dst, a, 0, 2 * n, |a|, mask, want);
    CopyInPlace(dst, b, |a|, 2 * n, |b|, mask, want);
    assert forall p :: 0 <= p < dst.Length ==> dst[p] == want[p];
  }
}
