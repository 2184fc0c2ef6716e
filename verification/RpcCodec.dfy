/** The message codec of rpc.py: pack_hashes, pack_blocks and pack_has with their inverses. Texts are their encoded bytes.
    A value that does not fit its field makes struct.pack or numpy raise, and a buffer that is too short makes unpacking
    raise: the first is a condition here (Fits), the second gives None. */
module RpcCodec {
  import opened Wrappers
  import opened Buffers

  // ---- integers ----

  function Pow256(k: nat): (p: int)
    ensures p > 0
  {
    if k == 0 then 1 else 256 * Pow256(k - 1)
  }

  /** k bytes, least significant first; negative values in two's complement. */
  function Enc(k: nat, v: int): (r: Bytes)
    ensures |r| == k
  {
    if k == 0 then [] else [v % 256] + Enc(k - 1, v / 256)
  }

  function Unsigned(b: Bytes): int { if b == [] then 0 else b[0] + 256 * Unsigned(b[1..]) }

  function Dec(signed: bool, b: Bytes): int {
    var u := Unsigned(b);
    if signed && 2 * u >= Pow256(|b|) then u - Pow256(|b|) else u
  }

  predicate InRange(k: nat, signed: bool, v: int) {
    if signed then -Pow256(k) <= 2 * v < Pow256(k) else 0 <= v < Pow256(k)
  }

  lemma {:induction false} UnsignedEnc(k: nat, v: int)
    requires -Pow256(k) <= v < Pow256(k)
    ensures Unsigned(Enc(k, v)) == if v < 0 then v + Pow256(k) else v
  {
    if k > 0 {
      UnsignedEnc(k - 1, v / 256);
      assert Enc(k, v)[1..] == Enc(k - 1, v / 256);
    }
  }

  lemma DecEnc(k: nat, signed: bool, v: int)
    requires InRange(k, signed, v)
    ensures Dec(signed, Enc(k, v)) == v
  {
    UnsignedEnc(k, v);
  }

  /** The integers that fit fields of the widths used. */
  lemma IntRanges(v: int)
    ensures InRange(1, true, v) <==> -0x80 <= v < 0x80
    ensures InRange(2, true, v) <==> -0x8000 <= v < 0x8000
    ensures InRange(4, true, v) <==> -0x8000_0000 <= v < 0x8000_0000
    ensures InRange(2, false, v) <==> 0 <= v < 0x1_0000
    ensures InRange(4, false, v) <==> 0 <= v < 0x1_0000_0000
  {
    Powers();
  }

  /** The low byte comes first. */
  lemma LowByteFirst(k: nat, a: int, b: int)
    requires k > 0 && 0 <= a < 256
    ensures Enc(k, a + 256 * b) == [a] + Enc(k - 1, b)
  {
    assert (a + 256 * b) % 256 == a && (a + 256 * b) / 256 == b;
  }

  /** An array of k-byte integers. */
  function EncAll(k: nat, vs: seq<int>): Bytes { if vs == [] then [] else Enc(k, vs[0]) + EncAll(k, vs[1..]) }

  datatype Read<T> = Read(value: T, rest: Bytes)

  /** np.frombuffer of n integers. */
  function ReadAll(k: nat, signed: bool, n: nat, b: Bytes): Option<Read<seq<int>>> {
    if n == 0 then Some(Read([], b))
    else if |b| < k then None
    else
      var tail := ReadAll(k, signed, n - 1, b[k..]);
      if tail.None? then None else Some(Read([Dec(signed, b[..k])] + tail.value.value, tail.value.rest))
  }

  /** The front of a concatenation can be cut off again. */
  lemma Regroup(x: Bytes, y: Bytes, rest: Bytes)
    ensures x + y + rest == x + (y + rest)
    ensures (x + (y + rest))[..|x|] == x && (x + (y + rest))[|x|..] == y + rest
  {
  }

  lemma {:induction false} ReadBack(k: nat, signed: bool, vs: seq<int>, rest: Bytes)
    requires forall i :: 0 <= i < |vs| ==> InRange(k, signed, vs[i])
    ensures ReadAll(k, signed, |vs|, EncAll(k, vs) + rest) == Some(Read(vs, rest))
  {
    if vs == [] {
      assert [] + rest == rest;
    } else {
      Regroup(Enc(k, vs[0]), EncAll(k, vs[1..]), rest);
      DecEnc(k, signed, vs[0]);
      ReadBack(k, signed, vs[1..], rest);
      assert vs == [vs[0]] + vs[1..];
    }
  }

  /** One unsigned field. */
  function ReadOne(k: nat, b: Bytes): (r: Option<Read<int>>)
    ensures r.Some? ==> r.value.value >= 0
  {
    if |b| < k then None else
      UnsignedNat(b[..k]);
      Some(Read(Unsigned(b[..k]), b[k..]))
  }

  lemma {:induction false} UnsignedNat(b: Bytes)
    ensures Unsigned(b) >= 0
  {
    if b != [] { UnsignedNat(b[1..]); }
  }

  lemma OneBack(k: nat, v: int, rest: Bytes)
    requires InRange(k, false, v)
    ensures ReadOne(k, Enc(k, v) + rest) == Some(Read(v, rest))
  {
    var b := Enc(k, v) + rest;
    assert b[..k] == Enc(k, v) && b[k..] == rest;
    UnsignedEnc(k, v);
  }

  // ---- hashes ----

  function MaxLen(hs: seq<Bytes>): nat {
    if hs == [] then 0
    else
      var m := MaxLen(hs[1..]);
      if |hs[0]| > m then |hs[0]| else m
  }

  function Zeros(n: nat): Bytes { seq(n, _ => 0) }

  /** A NUL-padded record of w bytes. */
  function Pad(h: Bytes, w: nat): (r: Bytes)
    requires |h| <= w
    ensures |r| == w
  {
    h + Zeros(w - |h|)
  }

  /** What numpy makes of a record: trailing NULs are not part of the value. */
  function Strip(r: Bytes): Bytes { if r == [] || r[|r| - 1] != 0 then r else Strip(r[..|r| - 1]) }

  lemma {:induction false} StripPad(h: Bytes, n: nat)
    ensures Strip(h + Zeros(n)) == Strip(h)
  {
    if n == 0 {
      assert h + Zeros(0) == h;
    } else {
      var r := h + Zeros(n);
      assert r[|r| - 1] == 0 && r[..|r| - 1] == h + Zeros(n - 1);
      StripPad(h, n - 1);
    }
  }

  /** A value survives exactly if it does not end in NUL. */
  lemma StripKeeps(h: Bytes)
    ensures Strip(h) == h <==> h == [] || h[|h| - 1] != 0
  {
    if h != [] && h[|h| - 1] == 0 { StripShorter(h[..|h| - 1]); }
  }

  lemma {:induction false} StripShorter(h: Bytes)
    ensures |Strip(h)| <= |h|
  {
    if h != [] { StripShorter(h[..|h| - 1]); }
  }

  function Records(hs: seq<Bytes>, w: nat): Bytes
    requires MaxLen(hs) <= w
  {
    if hs == [] then [] else Pad(hs[0], w) + Records(hs[1..], w)
  }

  function StripAll(hs: seq<Bytes>): seq<Bytes> { if hs == [] then [] else [Strip(hs[0])] + StripAll(hs[1..]) }

  predicate Ascii(b: Bytes) { forall i :: 0 <= i < |b| ==> b[i] < 128 }

  predicate AllAscii(hs: seq<Bytes>) { forall i :: 0 <= i < |hs| ==> Ascii(hs[i]) }

  /** astype(str) decodes ASCII and raises on anything else. */
  function ReadRecords(n: nat, w: nat, b: Bytes): Option<Read<seq<Bytes>>> {
    if n == 0 then Some(Read([], b))
    else if |b| < w || !Ascii(b[..w]) then None
    else
      var tail := ReadRecords(n - 1, w, b[w..]);
      if tail.None? then None else Some(Read([Strip(b[..w])] + tail.value.value, tail.value.rest))
  }

  lemma {:induction false} RecordsBack(hs: seq<Bytes>, w: nat, rest: Bytes)
    requires MaxLen(hs) <= w && AllAscii(hs)
    ensures ReadRecords(|hs|, w, Records(hs, w) + rest) == Some(Read(StripAll(hs), rest))
  {
    if hs == [] {
      assert [] + rest == rest;
    } else {
      Regroup(Pad(hs[0], w), Records(hs[1..], w), rest);
      StripPad(hs[0], w - |hs[0]|);
      RecordsBack(hs[1..], w, rest);
    }
  }

  /** numpy gives an array of empty strings a width of one byte, while the field says zero. */
  function PackHashes(hs: seq<Bytes>): Bytes {
    var w := MaxLen(hs);
    Enc(4, |hs|) + Enc(2, w) + (if w == 0 then Zeros(|hs|) else Records(hs, w))
  }

  function UnpackHashes(b: Bytes): Option<Read<seq<Bytes>>> {
    var n := ReadOne(4, b);
    if n.None? then None
    else
      var h := ReadOne(2, n.value.rest);
      if h.None? then None
      else if n.value.value == 0 then Some(Read([], h.value.rest))
      else if h.value.value == 0 then None    // numpy refuses items of no bytes
      else ReadRecords(n.value.value, h.value.value, h.value.rest)
  }

  /** numpy makes S records of ASCII text only. */
  predicate HashesFit(hs: seq<Bytes>) { |hs| < 0x1_0000_0000 && MaxLen(hs) < 0x1_0000 && AllAscii(hs) }

  /** What comes out of a packed list: the stripped hashes, or an error when all of them are empty. */
  lemma HashesBack(hs: seq<Bytes>, rest: Bytes)
    requires HashesFit(hs)
    ensures UnpackHashes(PackHashes(hs) + rest)
         == if hs == [] then Some(Read([], rest)) else if MaxLen(hs) == 0 then None else Some(Read(StripAll(hs), rest))
  {
    var w := MaxLen(hs);
    var body := if w == 0 then Zeros(|hs|) else Records(hs, w);
    FieldsBack(|hs|, w, body, rest);
    if hs == [] {
      assert body + rest == rest;
    } else if w > 0 {
      RecordsBack(hs, w, rest);
    }
  }

  lemma FieldsBack(n: nat, w: nat, body: Bytes, rest: Bytes)
    requires n < 0x1_0000_0000 && w < 0x1_0000
    ensures ReadOne(4, Enc(4, n) + Enc(2, w) + body + rest) == Some(Read(n, Enc(2, w) + (body + rest)))
    ensures ReadOne(2, Enc(2, w) + (body + rest)) == Some(Read(w, body + rest))
  {
    Powers();
    assert Enc(4, n) + Enc(2, w) + body + rest == Enc(4, n) + (Enc(2, w) + (body + rest));
    OneBack(4, n, Enc(2, w) + (body + rest));
    OneBack(2, w, body + rest);
  }

  lemma Powers()
    ensures Pow256(1) == 0x100 && Pow256(2) == 0x1_0000 && Pow256(4) == 0x1_0000_0000 && Pow256(8) == 0x1_0000_0000_0000_0000
  {
    assert Pow256(1) == 256 * Pow256(0);
    assert Pow256(2) == 256 * Pow256(1);
    assert Pow256(3) == 256 * Pow256(2);
    assert Pow256(4) == 256 * Pow256(3);
    assert Pow256(5) == 256 * Pow256(4);
    assert Pow256(6) == 256 * Pow256(5);
    assert Pow256(7) == 256 * Pow256(6);
    assert Pow256(8) == 256 * Pow256(7);
  }

  lemma {:induction false} RecordAt(hs: seq<Bytes>, w: nat, j: nat)
    requires MaxLen(hs) <= w && j < |hs|
    ensures |hs[j]| <= w && w * j + w <= |Records(hs, w)|
    ensures Records(hs, w)[w * j..w * j + w] == Pad(hs[j], w)
  {
    var first, rest := Pad(hs[0], w), Records(hs[1..], w);
    if j == 0 {
      assert (first + rest)[0..w] == first;
    } else {
      RecordAt(hs[1..], w, j - 1);
      assert w * (j - 1) + w == w * j;
      SliceLater(first, rest, w * (j - 1), w);
    }
  }

  lemma SliceLater(front: Bytes, rest: Bytes, at: nat, len: nat)
    requires at + len <= |rest|
    ensures (front + rest)[|front| + at..|front| + at + len] == rest[at..at + len]
  {
    var x, y := (front + rest)[|front| + at..|front| + at + len], rest[at..at + len];
    forall i | 0 <= i < len ensures x[i] == y[i] { assert (front + rest)[|front| + at + i] == rest[at + i]; }
  }

  /** The layout of packed hashes: count and width in the first 6 bytes ... */
  lemma HashHeader(hs: seq<Bytes>)
    requires MaxLen(hs) > 0
    ensures |PackHashes(hs)| == 6 + |Records(hs, MaxLen(hs))|
    ensures PackHashes(hs)[..4] == Enc(4, |hs|) && PackHashes(hs)[4..6] == Enc(2, MaxLen(hs))
    ensures PackHashes(hs)[6..] == Records(hs, MaxLen(hs))
  {
    var x, y, body := Enc(4, |hs|), Enc(2, MaxLen(hs)), Records(hs, MaxLen(hs));
    assert PackHashes(hs) == x + y + body;
    Front(x, y, body);
  }

  /** ... and then hash j, with NULs behind it, in the j-th of the records. */
  lemma HashLayout(hs: seq<Bytes>, j: nat)
    requires j < |hs| && MaxLen(hs) > 0
    ensures var body, w := PackHashes(hs)[6..], MaxLen(hs);
            |hs[j]| <= w && w * j + w <= |body| && body[w * j..w * j + w] == hs[j] + Zeros(w - |hs[j]|)
  {
    HashHeader(hs);
    RecordAt(hs, MaxLen(hs), j);
  }

  lemma Front(x: Bytes, y: Bytes, body: Bytes)
    ensures (x + y + body)[..|x|] == x && (x + y + body)[|x|..|x| + |y|] == y && (x + y + body)[|x| + |y|..] == body
  {
  }

  /** No hash ends in NUL, and if there are hashes one is not empty. */
  ghost predicate Clean(hs: seq<Bytes>) {
    && (hs == [] || MaxLen(hs) > 0)
    && forall i :: 0 <= i < |hs| ==> hs[i] == [] || hs[i][|hs[i]| - 1] != 0
  }

  lemma {:induction false} StripAllKeeps(hs: seq<Bytes>)
    ensures |StripAll(hs)| == |hs|
    ensures StripAll(hs) == hs <==> forall i :: 0 <= i < |hs| ==> hs[i] == [] || hs[i][|hs[i]| - 1] != 0
  {
    if hs != [] {
      StripAllKeeps(hs[1..]);
      StripKeeps(hs[0]);
      assert hs == [hs[0]] + hs[1..];
      assert StripAll(hs) == hs <==> Strip(hs[0]) == hs[0] && StripAll(hs[1..]) == hs[1..] by {
        assert StripAll(hs)[0] == Strip(hs[0]) && StripAll(hs)[1..] == StripAll(hs[1..]);
      }
      assert forall i :: 0 <= i < |hs[1..]| ==> hs[1..][i] == hs[i + 1];
      assert forall i :: 0 < i < |hs| ==> hs[i] == hs[1..][i - 1];
    }
  }

  // ---- messages ----

  datatype Blocks = Blocks(indices: seq<int>, layers: seq<int>, levels: seq<int>, hashes: seq<Bytes>, desc: Bytes, name: Bytes, bundle: int)

  ghost predicate AllIn(k: nat, vs: seq<int>) { forall i :: 0 <= i < |vs| ==> InRange(k, true, vs[i]) }

  /** Every field fits. */
  ghost predicate Fits(m: Blocks) {
    && InRange(4, false, |m.indices|) && InRange(2, false, |m.layers|) && InRange(2, false, |m.levels|)
    && InRange(2, false, |m.desc|) && InRange(2, false, |m.name|) && InRange(8, false, m.bundle)
    && AllIn(4, m.indices) && AllIn(2, m.layers) && AllIn(1, m.levels) && HashesFit(m.hashes)
  }

  function Header(m: Blocks): Bytes {
    Enc(4, |m.indices|) + (EncAll(2, [|m.layers|, |m.levels|, |m.desc|, |m.name|]) + Enc(8, m.bundle))
  }

  function Arrays(m: Blocks): Bytes { EncAll(4, m.indices) + (EncAll(2, m.layers) + EncAll(1, m.levels)) }

  function PackBlocks(m: Blocks): Bytes { Header(m) + (Arrays(m) + (PackHashes(m.hashes) + (m.desc + m.name))) }

  /** The layout of a request: sizes and bundle id in the first 20 bytes, then the arrays, the hashes and the texts. */
  lemma BlocksLayout(m: Blocks)
    ensures |Header(m)| == 20
    ensures Header(m) == Enc(4, |m.indices|) + Enc(2, |m.layers|) + Enc(2, |m.levels|) + Enc(2, |m.desc|) + Enc(2, |m.name|)
                         + Enc(8, m.bundle)
    ensures PackBlocks(m) == Header(m) + EncAll(4, m.indices) + EncAll(2, m.layers) + EncAll(1, m.levels)
                             + PackHashes(m.hashes) + m.desc + m.name
  {
    FourSizes(|m.layers|, |m.levels|, |m.desc|, |m.name|);
    SixParts(Enc(4, |m.indices|), Enc(2, |m.layers|), Enc(2, |m.levels|), Enc(2, |m.desc|), Enc(2, |m.name|), Enc(8, m.bundle));
    SevenParts(Header(m), EncAll(4, m.indices), EncAll(2, m.layers), EncAll(1, m.levels), PackHashes(m.hashes), m.desc, m.name);
  }

  lemma SixParts(a: Bytes, b: Bytes, c: Bytes, d: Bytes, e: Bytes, f: Bytes)
    ensures a + ((b + c + d + e) + f) == a + b + c + d + e + f
  {
  }

  lemma SevenParts(a: Bytes, b: Bytes, c: Bytes, d: Bytes, e: Bytes, f: Bytes, g: Bytes)
    ensures a + ((b + (c + d)) + (e + (f + g))) == a + b + c + d + e + f + g
  {
  }

  lemma FourSizes(a: int, b: int, c: int, d: int)
    ensures EncAll(2, [a, b, c, d]) == Enc(2, a) + Enc(2, b) + Enc(2, c) + Enc(2, d)
  {
    assert [a, b, c, d][1..] == [b, c, d] && [b, c, d][1..] == [c, d] && [c, d][1..] == [d] && [d][1..] == [];
    assert EncAll(2, [d]) == Enc(2, d);
    assert EncAll(2, [c, d]) == Enc(2, c) + Enc(2, d);
  }

  datatype Sizes = Sizes(n: int, layers: int, levels: int, desc: int, name: int, bundle: int)

  function ReadHeader(b: Bytes): Option<Read<Sizes>> {
    var n := ReadOne(4, b);
    if n.None? then None
    else
      var s := ReadAll(2, false, 4, n.value.rest);
      if s.None? || |s.value.value| != 4 then None
      else
        var q := ReadOne(8, s.value.rest);
        if q.None? then None
        else
          var v := s.value.value;
          Some(Read(Sizes(n.value.value, v[0], v[1], v[2], v[3], q.value.value), q.value.rest))
  }

  lemma HeaderBack(m: Blocks, rest: Bytes)
    requires Fits(m)
    ensures ReadHeader(Header(m) + rest)
         == Some(Read(Sizes(|m.indices|, |m.layers|, |m.levels|, |m.desc|, |m.name|, m.bundle), rest))
  {
    var v := [|m.layers|, |m.levels|, |m.desc|, |m.name|];
    assert Header(m) + rest == Enc(4, |m.indices|) + (EncAll(2, v) + (Enc(8, m.bundle) + rest));
    OneBack(4, |m.indices|, EncAll(2, v) + (Enc(8, m.bundle) + rest));
    ReadBack(2, false, v, Enc(8, m.bundle) + rest);
    OneBack(8, m.bundle, rest);
  }

  datatype Ints = Ints(indices: seq<int>, layers: seq<int>, levels: seq<int>)

  function ReadArrays(z: Sizes, b: Bytes): Option<Read<Ints>> {
    if z.n < 0 || z.layers < 0 || z.levels < 0 then None
    else
      var i := ReadAll(4, true, z.n, b);
      if i.None? then None
      else
        var l := ReadAll(2, true, z.layers, i.value.rest);
        if l.None? then None
        else
          var p := ReadAll(1, true, z.levels, l.value.rest);
          if p.None? then None else Some(Read(Ints(i.value.value, l.value.value, p.value.value), p.value.rest))
  }

  lemma ArraysBack(m: Blocks, z: Sizes, rest: Bytes)
    requires Fits(m) && z.n == |m.indices| && z.layers == |m.layers| && z.levels == |m.levels|
    ensures ReadArrays(z, Arrays(m) + rest) == Some(Read(Ints(m.indices, m.layers, m.levels), rest))
  {
    assert Arrays(m) + rest == EncAll(4, m.indices) + (EncAll(2, m.layers) + (EncAll(1, m.levels) + rest));
    ReadBack(4, true, m.indices, EncAll(2, m.layers) + (EncAll(1, m.levels) + rest));
    ReadBack(2, true, m.layers, EncAll(1, m.levels) + rest);
    ReadBack(1, true, m.levels, rest);
  }

  /** Python slices never fail: a short buffer gives a short text. */
  function Head(b: Bytes, n: int): Bytes { if n < 0 then [] else if n <= |b| then b[..n] else b }
  function Tail(b: Bytes, n: int): Bytes { if n < 0 then b else if n <= |b| then b[n..] else [] }

  function UnpackBlocks(b: Bytes): Option<Blocks> {
    var z := ReadHeader(b);
    if z.None? then None
    else
      var a := ReadArrays(z.value.value, z.value.rest);
      if a.None? then None
      else
        var h := UnpackHashes(a.value.rest);
        if h.None? then None
        else
          var s, x, rest := z.value.value, a.value.value, h.value.rest;
          Some(Blocks(x.indices, x.layers, x.levels, h.value.value, Head(rest, s.desc), Head(Tail(rest, s.desc), s.name), s.bundle))
  }

  /** What comes out of a packed request. */
  lemma BlocksBack(m: Blocks)
    requires Fits(m)
    ensures UnpackBlocks(PackBlocks(m))
         == if m.hashes != [] && MaxLen(m.hashes) == 0 then None else Some(m.(hashes := StripAll(m.hashes)))
  {
    var text := m.desc + m.name;
    var z := Sizes(|m.indices|, |m.layers|, |m.levels|, |m.desc|, |m.name|, m.bundle);
    HeaderBack(m, Arrays(m) + (PackHashes(m.hashes) + text));
    ArraysBack(m, z, PackHashes(m.hashes) + text);
    HashesBack(m.hashes, text);
    assert Head(text, |m.desc|) == m.desc && Head(Tail(text, |m.desc|), |m.name|) == m.name;
  }

  /** Round trip of a put or get request: it holds exactly if no hash ends in NUL and not all hashes are empty. */
  lemma BlocksRoundTrip(m: Blocks)
    requires Fits(m)
    ensures UnpackBlocks(PackBlocks(m)) == Some(m) <==> Clean(m.hashes)
  {
    BlocksBack(m);
    BlocksSurvive(m, UnpackBlocks(PackBlocks(m)));
  }

  lemma BlocksSurvive(m: Blocks, out: Option<Blocks>)
    requires out == if m.hashes != [] && MaxLen(m.hashes) == 0 then None else Some(m.(hashes := StripAll(m.hashes)))
    ensures out == Some(m) <==> Clean(m.hashes)
  {
    StripAllKeeps(m.hashes);
  }

  /** A request for block 3 of layer 0. */
  function Sample(hs: seq<Bytes>): Blocks { Blocks([3], [0], [], hs, [], [], 0) }

  lemma SampleBack(hs: seq<Bytes>)
    requires HashesFit(hs)
    ensures Fits(Sample(hs))
    ensures UnpackBlocks(PackBlocks(Sample(hs)))
         == if hs != [] && MaxLen(hs) == 0 then None else Some(Sample(StripAll(hs)))
  {
    Powers();
    BlocksBack(Sample(hs));
  }

  /** A hash that ends in NUL arrives without it. */
  lemma NulIsLost()
    ensures UnpackBlocks(PackBlocks(Sample([[97, 0]]))) == Some(Sample([[97]]))
  {
    var h: Bytes := [97, 0];
    assert [h][1..] == [] && MaxLen([h]) == 2;
    assert h[..1] == [97] && Strip([97]) == [97];
    assert StripAll([h]) == [[97]];
    SampleBack([h]);
  }

  /** A list of empty hashes does not arrive. */
  lemma EmptyIsLost()
    ensures UnpackBlocks(PackBlocks(Sample([[]]))) == None
  {
    var hs: seq<Bytes> := [[]];
    assert hs[1..] == [] && MaxLen(hs) == 0;
    SampleBack(hs);
  }

  datatype Has = Has(hashes: seq<Bytes>, name: Bytes, truncate: bool)

  function PackHas(m: Has): Bytes {
    Enc(1, |m.name|) + (Enc(1, if m.truncate then 1 else 0) + (m.name + PackHashes(m.hashes)))
  }

  function UnpackHas(b: Bytes): Option<Has> {
    var n := ReadOne(1, b);
    if n.None? then None
    else
      var t := ReadOne(1, n.value.rest);
      if t.None? then None
      else
        var h := UnpackHashes(Tail(t.value.rest, n.value.value));
        if h.None? then None else Some(Has(h.value.value, Head(t.value.rest, n.value.value), t.value.value != 0))
  }

  /** The layout of a has request: the length of the label, the flag as 0 or 1, the label and the hashes. */
  lemma HasLayout(m: Has)
    requires |m.name| < 256
    ensures PackHas(m) == [|m.name|, if m.truncate then 1 else 0] + m.name + PackHashes(m.hashes)
  {
    assert Enc(0, 0) == [];
    assert Enc(1, |m.name|) == [|m.name|] && Enc(1, 1) == [1] && Enc(1, 0) == [0];
  }

  lemma HasBack(m: Has)
    requires |m.name| < 256 && HashesFit(m.hashes)
    ensures UnpackHas(PackHas(m))
         == if m.hashes != [] && MaxLen(m.hashes) == 0 then None else Some(m.(hashes := StripAll(m.hashes)))
  {
    Powers();
    var flag, rest := if m.truncate then 1 else 0, m.name + PackHashes(m.hashes);
    OneBack(1, |m.name|, Enc(1, flag) + rest);
    OneBack(1, flag, rest);
    HashesAlone(m.hashes);
    SplitText(m.name, PackHashes(m.hashes));
  }

  lemma HashesAlone(hs: seq<Bytes>)
    requires HashesFit(hs)
    ensures UnpackHashes(PackHashes(hs))
         == if hs == [] then Some(Read([], [])) else if MaxLen(hs) == 0 then None else Some(Read(StripAll(hs), []))
  {
    HashesBack(hs, []);
    assert PackHashes(hs) + [] == PackHashes(hs);
  }

  lemma SplitText(x: Bytes, y: Bytes)
    ensures Head(x + y, |x|) == x && Tail(x + y, |x|) == y
  {
  }

  /** Round trip of a has request, under the same condition. */
  lemma HasRoundTrip(m: Has)
    requires |m.name| < 256 && HashesFit(m.hashes)
    ensures UnpackHas(PackHas(m)) == Some(m) <==> Clean(m.hashes)
  {
    HasBack(m);
    HasSurvives(m, UnpackHas(PackHas(m)));
  }

  lemma HasSurvives(m: Has, out: Option<Has>)
    requires out == if m.hashes != [] && MaxLen(m.hashes) == 0 then None else Some(m.(hashes := StripAll(m.hashes)))
    ensures out == Some(m) <==> Clean(m.hashes)
  {
    StripAllKeeps(m.hashes);
  }
}
