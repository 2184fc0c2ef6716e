/** Compression of one tensor into one block by any number of threads (kv_zip_compress_batch), as a state machine whose
    steps are the atomic actions of the submit and complete callbacks. A segment that finishes while others are in
    flight parks its payload over its own bytes of the tensor; the last one to finish assembles the block. */
module ZipBlock {
  import opened Wrappers
  import opened Buffers
  import opened DataShuffle
  import opened ZipLayout

  datatype Backend = QAT | IAA | CPU

  /** decode(b, stream) is what backend b makes of a stream. */
  type Decoder = (Backend, Bytes) -> Bytes

  /** One tensor to compress. `input` is its content before compression starts. */
  datatype Task = Task(h: Header, mask: Word, input: Bytes, decode: Decoder) {
    predicate Valid() { ZipLayout.Valid(h) && |input| == h.origSize }
  }

  /** `stream` decodes to `y` on every backend its segment may be routed to: QAT and CPU streams are compatible with
      each other, IAA streams only with IAA. */
  predicate Decodes(decode: Decoder, iaa: bool, stream: Bytes, y: Bytes) {
    if iaa then decode(IAA, stream) == y else decode(QAT, stream) == y && decode(CPU, stream) == y
  }

  /** The content of the backend's input buffer for a segment. */
  function Prepare(h: Header, mask: Word, segment: Bytes): (r: Bytes)
    ensures |r| == |segment|
  {
    if h.shuffled then Shuffled(Masked(segment, mask)) else Masked(segment, mask)
  }

  function Prepared(t: Task, k: nat): (r: Bytes)
    requires t.Valid() && k < t.h.segments
    ensures |r| == Length(t.h, k)
  {
    Prepare(t.h, t.mask, Segment(t.h, t.input, k))
  }

  /** Payload p of segment k with table entry e holds the prepared segment: whole, or as a stream of its first
      ZipLength bytes followed by the rest. */
  predicate Good(t: Task, k: nat, e: Entry, p: Bytes)
    requires t.Valid() && k < t.h.segments
  {
    var y, raw := Prepared(t, k), Length(t.h, k) - ZipLength(t.h, k);
    && |p| == e.length <= Length(t.h, k)
    && if e.stored then p == y else
         && raw < e.length
         && 0 <= ZipLength(t.h, k) <= |y|
         && Decodes(t.decode, e.iaa, p[..e.length - raw], y[..ZipLength(t.h, k)])
         && p[e.length - raw..] == y[ZipLength(t.h, k)..]
  }

  /** The complete callback: table entry and payload from the backend's output and the input buffer. */
  function Completion(h: Header, k: nat, backend: Backend, input: Bytes, stream: Bytes): (r: (Entry, Bytes))
    requires Valid(h) && k < h.segments && |input| == Length(h, k)
    ensures r.0.length == |r.1| <= |input|
  {
    RegionFits(h, k);
    var len, zlen := |input|, ZipLength(h, k);
    if |stream| < zlen then (Entry(0, |stream| + len - zlen, false, backend.IAA?), stream + input[zlen..])
    else (Entry(0, len, true, false), input)
  }

  lemma CompletionIsGood(t: Task, k: nat, backend: Backend, stream: Bytes)
    requires t.Valid() && k < t.h.segments && |stream| > 0
    requires Decodes(t.decode, backend.IAA?, stream, Prepared(t, k)[..ZipLen(t, k)])
    ensures var r := Completion(t.h, k, backend, Prepared(t, k), stream);
            && Good(t, k, r.0, r.1)
            // stored exactly if the stream is no shorter, otherwise the stream and the raw rest
            && (r.0.stored <==> |stream| >= ZipLen(t, k))
            && (!r.0.stored ==> r.0.length == |stream| + Length(t.h, k) - ZipLen(t, k) && (r.0.iaa <==> backend.IAA?))
            && (r.0.stored ==> r.0.length == Length(t.h, k))
  {
    RegionFits(t.h, k);
    var y, zlen := Prepared(t, k), ZipLength(t.h, k);
    if |stream| < zlen {
      var p := stream + y[zlen..];
      assert p[..|stream|] == stream && p[|stream|..] == y[zlen..];
    }
  }

  function ZipLen(t: Task, k: nat): (z: nat)
    requires t.Valid() && k < t.h.segments
    ensures z == ZipLength(t.h, k) <= |Prepared(t, k)|
  {
    RegionFits(t.h, k);
    ZipLength(t.h, k)
  }

  /** Where a segment is on its way through submit and complete. */
  datatype Phase =
    | Waiting                                     // not read yet
    | InFlight(backend: Backend, input: Bytes)    // prepared and given to a backend
    | Finished(payload: Bytes)                    // entry written, `pending` not read yet
    | Parking(payload: Bytes)                     // saw pending > 1
    | Parked                                      // payload copied over the tensor, `pending` not decremented yet
    | Returned                                    // decremented `pending` and left
    | Last(inHand: Option<Bytes>)                 // about to assemble; None when its payload is parked
    | Assembled(direct: bool)                     // assembled the block; direct when it never decremented

  /** A compressed block. `payloads` is the part of the buffer from PayloadStart on. */
  datatype Block = Block(header: Header, table: seq<Entry>, payloads: Bytes)

  datatype State = State(data: Bytes, pending: int, phases: seq<Phase>, entries: seq<Entry>, outs: seq<Block>)

  datatype Event =
    | Submit(k: nat, backend: Backend)
    | Finish(k: nat, stream: Bytes)
    | Load(k: nat)
    | Park(k: nat)
    | Decrement(k: nat)
    | Assemble(k: nat)

  function Init(t: Task): State
    requires t.Valid()
  {
    State(t.input, t.h.segments, seq(t.h.segments, _ => Waiting), seq(t.h.segments, _ => Entry(0, 0, false, false)), [])
  }

  predicate Shape(t: Task, s: State) {
    && t.Valid()
    && |s.phases| == |s.entries| == t.h.segments
    && |s.data| == t.h.origSize
  }

  predicate Enabled(t: Task, s: State, e: Event)
    requires Shape(t, s)
  {
    e.k < t.h.segments &&
    match e
    case Submit(k, _) => s.phases[k].Waiting?
    case Finish(k, stream) =>
      && s.phases[k].InFlight? && |s.phases[k].input| == Length(t.h, k)
      && |stream| > 0 && 0 <= ZipLength(t.h, k) <= Length(t.h, k)
      && Decodes(t.decode, s.phases[k].backend.IAA?, stream, s.phases[k].input[..ZipLength(t.h, k)])
    case Load(k) => s.phases[k].Finished?
    case Park(k) => s.phases[k].Parking? && |s.phases[k].payload| <= Length(t.h, k)
    case Decrement(k) => s.phases[k].Parked?
    case Assemble(k) => s.phases[k].Last? && forall j :: 0 <= j < t.h.segments ==> s.entries[j].length <= Length(t.h, j)
  }

  function After(t: Task, s: State, e: Event): (s': State)
    requires Shape(t, s) && Enabled(t, s, e)
    ensures Shape(t, s')
  {
    match e
    case Submit(k, backend) =>
      s.(phases := s.phases[k := InFlight(backend, Prepare(t.h, t.mask, Segment(t.h, s.data, k)))])
    case Finish(k, stream) =>
      var r := Completion(t.h, k, s.phases[k].backend, s.phases[k].input, stream);
      s.(phases := s.phases[k := Finished(r.1)], entries := s.entries[k := r.0])
    case Load(k) =>
      var p := s.phases[k].payload;
      s.(phases := s.phases[k := if s.pending > 1 then Parking(p) else Last(Some(p))])
    case Park(k) =>
      RegionFits(t.h, k);
      s.(data := Write(s.data, Start(t.h, k), s.phases[k].payload), phases := s.phases[k := Parked])
    case Decrement(k) =>
      s.(pending := s.pending - 1, phases := s.phases[k := if s.pending > 1 then Returned else Last(None)])
    case Assemble(k) =>
      var last := s.phases[k];
      s.(phases := s.phases[k := Assembled(last.inHand.Some?)],
         outs := s.outs + [Assembly(t.h, s.entries, Pieces(t, s, k, last.inHand))])
  }

  // ---- the assembled block ----

  /** The payload assemble takes for segment j: the one in hand for segment `last`, the parked one for the others. */
  function Piece(t: Task, s: State, last: nat, payload: Option<Bytes>, j: nat): Bytes
    requires Shape(t, s) && j < t.h.segments && s.entries[j].length <= Length(t.h, j)
  {
    if j == last && payload.Some? then payload.value else Segment(t.h, s.data, j)[..s.entries[j].length]
  }

  function Pieces(t: Task, s: State, last: nat, payload: Option<Bytes>): (r: seq<Bytes>)
    requires Shape(t, s) && forall j :: 0 <= j < t.h.segments ==> s.entries[j].length <= Length(t.h, j)
    ensures |r| == t.h.segments
  {
    seq(t.h.segments, j requires 0 <= j < t.h.segments => Piece(t, s, last, payload, j))
  }

  function Concat(pieces: seq<Bytes>): Bytes {
    if pieces == [] then [] else Concat(pieces[..|pieces| - 1]) + pieces[|pieces| - 1]
  }

  /** Bytes before piece k. */
  function Offset(pieces: seq<Bytes>, k: nat): nat
    requires k <= |pieces|
  {
    |Concat(pieces[..k])|
  }

  function Table(segments: nat, entries: seq<Entry>, pieces: seq<Bytes>): seq<Entry>
    requires |entries| == |pieces| == segments
  {
    seq(segments, k requires 0 <= k < segments => entries[k].(offset := PayloadStart(segments) + Offset(pieces, k)))
  }

  function Assembly(h: Header, entries: seq<Entry>, pieces: seq<Bytes>): Block
    requires |entries| == |pieces| == h.segments
  {
    Block(h, Table(h.segments, entries, pieces), Concat(pieces))
  }

  /** Block b holds the whole tensor of t and is no larger than the tensor. */
  predicate GoodBlock(t: Task, b: Block)
    requires t.Valid()
  {
    && b.header == t.h
    && |b.table| == t.h.segments
    && |b.payloads| <= t.h.origSize
    && forall k :: 0 <= k < t.h.segments ==> GoodEntry(t, b, k)
  }

  predicate GoodEntry(t: Task, b: Block, k: nat)
    requires t.Valid() && k < t.h.segments == |b.table|
  {
    var e := b.table[k];
    && 0 <= e.offset - PayloadStart(t.h.segments) <= e.offset - PayloadStart(t.h.segments) + e.length <= |b.payloads|
    && Good(t, k, e, Slice(b.payloads, e.offset - PayloadStart(t.h.segments), e.length))
  }

  lemma {:induction false} ConcatKeepsPrefix(pieces: seq<Bytes>, k: nat)
    requires k <= |pieces|
    ensures Offset(pieces, k) <= |Concat(pieces)| && Concat(pieces)[..Offset(pieces, k)] == Concat(pieces[..k])
  {
    if k == |pieces| {
      assert pieces[..k] == pieces;
    } else {
      var front := pieces[..|pieces| - 1];
      ConcatKeepsPrefix(front, k);
      assert front[..k] == pieces[..k];
    }
  }

  /** Piece k sits at its offset. */
  lemma ConcatHoldsPiece(pieces: seq<Bytes>, k: nat)
    requires k < |pieces|
    ensures Offset(pieces, k) + |pieces[k]| <= |Concat(pieces)|
    ensures Slice(Concat(pieces), Offset(pieces, k), |pieces[k]|) == pieces[k]
  {
    ConcatKeepsPrefix(pieces, k + 1);
    var upTo := pieces[..k + 1];
    assert upTo[..|upTo| - 1] == pieces[..k] && upTo[|upTo| - 1] == pieces[k];
    assert Concat(upTo) == Concat(pieces[..k]) + pieces[k];
    assert Slice(Concat(pieces), Offset(pieces, k), |pieces[k]|) == Concat(upTo)[Offset(pieces, k)..];
  }

  /** Pieces no longer than their segments never take more room than the tensor. */
  lemma {:induction false} ConcatFits(h: Header, pieces: seq<Bytes>, k: nat)
    requires Valid(h) && |pieces| == h.segments && k < h.segments
    requires forall j :: 0 <= j < h.segments ==> |pieces[j]| <= Length(h, j)
    ensures Offset(pieces, k) + |pieces[k]| <= Start(h, k) + Length(h, k)
  {
    RegionFits(h, k);
    if k > 0 {
      ConcatFits(h, pieces, k - 1);
      RegionFits(h, k - 1);
      var upTo := pieces[..k];
      assert upTo[..|upTo| - 1] == pieces[..k - 1] && upTo[|upTo| - 1] == pieces[k - 1];
    } else {
      assert pieces[..0] == [];
    }
  }

  lemma AssemblySize(h: Header, pieces: seq<Bytes>)
    requires Valid(h) && |pieces| == h.segments
    requires forall j :: 0 <= j < h.segments ==> |pieces[j]| <= Length(h, j)
    ensures |Concat(pieces)| <= h.origSize
  {
    SegmentsFit(h);
    var m := h.segments;
    ConcatFits(h, pieces, m - 1);
    RegionFits(h, m - 1);
  }

  /** Good does not look at the offset. */
  lemma GoodAnywhere(t: Task, k: nat, e: Entry, p: Bytes, offset: nat)
    requires t.Valid() && k < t.h.segments && Good(t, k, e, p)
    ensures Good(t, k, e.(offset := offset), p)
  {
  }

  lemma AssemblyEntry(t: Task, entries: seq<Entry>, pieces: seq<Bytes>, k: nat)
    requires t.Valid() && |entries| == |pieces| == t.h.segments && k < t.h.segments
    requires Good(t, k, entries[k], pieces[k])
    ensures GoodEntry(t, Assembly(t.h, entries, pieces), k)
  {
    ConcatHoldsPiece(pieces, k);
    var at := PayloadStart(t.h.segments) + Offset(pieces, k);
    GoodAnywhere(t, k, entries[k], pieces[k], at);
    var e := Assembly(t.h, entries, pieces).table[k];
    assert e == entries[k].(offset := at);
    assert |pieces[k]| == e.length;
  }

  /** Good payloads for every segment assemble into a good block. */
  lemma AssemblyIsGood(t: Task, entries: seq<Entry>, pieces: seq<Bytes>)
    requires t.Valid() && |entries| == |pieces| == t.h.segments
    requires forall k :: 0 <= k < t.h.segments ==> Good(t, k, entries[k], pieces[k])
    ensures GoodBlock(t, Assembly(t.h, entries, pieces))
  {
    forall k | 0 <= k < t.h.segments
      ensures |pieces[k]| <= Length(t.h, k) && GoodEntry(t, Assembly(t.h, entries, pieces), k)
    {
      AssemblyEntry(t, entries, pieces, k);
    }
    AssemblySize(t.h, pieces);
  }

  /** What the table's offsets count from: the start of the buffer, behind a header of 20 bytes and 12 bytes per entry. */
  lemma OffsetsCountFromTheStart(h: Header, entries: seq<Entry>, pieces: seq<Bytes>, head: Bytes, tab: Bytes, k: nat)
    requires |entries| == |pieces| == h.segments && |head| == 20 && |tab| == 12 * h.segments && k < h.segments
    ensures var b := Assembly(h, entries, pieces);
            && b.table[k].offset + |pieces[k]| <= |head + tab + b.payloads|
            && Slice(head + tab + b.payloads, b.table[k].offset, |pieces[k]|) == pieces[k]
  {
    ConcatHoldsPiece(pieces, k);
    ReadBehind(head + tab, Concat(pieces), Offset(pieces, k), |pieces[k]|);
  }

  lemma ReadBehind(front: Bytes, data: Bytes, at: nat, len: nat)
    requires at + len <= |data|
    ensures Slice(front + data, |front| + at, len) == Slice(data, at, len)
  {
    var x, y := Slice(front + data, |front| + at, len), Slice(data, at, len);
    forall i | 0 <= i < len ensures x[i] == y[i] { assert (front + data)[|front| + at + i] == data[at + i]; }
  }

  /** The bytes of a prepared segment: masked by the parity of their place in the segment, and permuted in a shuffled
      block. */
  lemma PreparedByte(h: Header, mask: Word, segment: Bytes, i: nat)
    requires i < |segment|
    ensures var j := if h.shuffled then Source(|segment|, i) else i;
            0 <= j < |segment| && Prepare(h, mask, segment)[i] == Masked(segment, mask)[j]
  {
    SourceInvolutive(|segment|, i);
  }

  // ---- the buffer code behind Prepare and Assembly ----

  /** submit: prepares a segment in the backend's input buffer. */
  method PrepareInto(buf: array<Byte>, h: Header, mask: Word, segment: Bytes)
    requires buf.Length == |segment|
    modifies buf
    ensures buf[..] == Prepare(h, mask, segment)
  {
    if h.shuffled {
      var half := |segment| / 2;
      assert segment[..half] + segment[half..] == segment;
      ShuffleCopy(buf, segment[..half], segment[half..], mask);
    } else {
      MaskedCopy(buf, segment, mask);
    }
  }

  lemma ConcatStep(pieces: seq<Bytes>, k: nat)
    requires k < |pieces|
    ensures Concat(pieces[..k + 1]) == Concat(pieces[..k]) + pieces[k]
    ensures Offset(pieces, k + 1) == Offset(pieces, k) + |pieces[k]|
  {
    var upTo := pieces[..k + 1];
    assert upTo[..|upTo| - 1] == pieces[..k] && upTo[|upTo| - 1] == pieces[k];
  }

  /** The first loop of assemble: the exact size of the block's payloads. */
  method TotalLength(entries: seq<Entry>, ghost pieces: seq<Bytes>) returns (size: nat)
    requires |entries| == |pieces| && forall k :: 0 <= k < |pieces| ==> |pieces[k]| == entries[k].length
    ensures size == |Concat(pieces)|
  {
    size := 0;
    for k := 0 to |entries|
      invariant size == Offset(pieces, k)
    {
      ConcatStep(pieces, k);
      size := size + entries[k].length;
    }
    assert pieces[..|pieces|] == pieces;
  }

  /** memcpy of one payload behind those already there. */
  method CopyPiece(buf: array<Byte>, offset: nat, src: Bytes)
    requires offset + |src| <= buf.Length
    modifies buf
    ensures buf[..offset + |src|] == old(buf[..offset]) + src
  {
    forall i | 0 <= i < |src| { buf[offset + i] := src[i]; }
    assert buf[offset..offset + |src|] == src;
  }

  /** assemble: a buffer of the exact size, filled piece by piece, and the table with its offsets. `pieces[k]` stands
      for the bytes at the source pointer of segment k. */
  method AssembleBlock(h: Header, entries: seq<Entry>, pieces: seq<Bytes>) returns (buf: array<Byte>, table: seq<Entry>)
    requires |entries| == |pieces| == h.segments
    requires forall k :: 0 <= k < |pieces| ==> |pieces[k]| == entries[k].length
    ensures fresh(buf) && Block(h, table, buf[..]) == Assembly(h, entries, pieces)
  {
    var size := TotalLength(entries, pieces);
    buf := new Byte[size];
    var offset := 0;
    table := [];
    for k := 0 to h.segments
      invariant offset == Offset(pieces, k) <= buf.Length
      invariant buf[..offset] == Concat(pieces[..k])
      invariant table == Table(h.segments, entries, pieces)[..k]
    {
      ConcatStep(pieces, k);
      ConcatKeepsPrefix(pieces, k + 1);
      var src := pieces[k];
      CopyPiece(buf, offset, src);
      table := table + [entries[k].(offset := PayloadStart(h.segments) + offset)];
      offset := offset + |src|;
    }
    assert pieces[..|pieces|] == pieces;
  }
}
