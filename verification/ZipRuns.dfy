/** Every interleaving of the compression machine: exactly one segment assembles the block, with every other payload
    parked intact, and the block decompresses to the masked tensor. */
module ZipRuns {
  import opened Buffers
  import Sets
  import opened DataShuffle
  import opened ZipLayout
  import opened Wrappers
  import opened ZipBlock

  predicate Final(p: Phase) { p.Last? || p.Assembled? }

  /** Segments still included in `pending`. */
  predicate Counts(p: Phase) { !(p.Returned? || p == Last(None) || p == Assembled(false)) }

  function Counted(phases: seq<Phase>): set<nat> { set k: nat | k < |phases| && Counts(phases[k]) }

  /** What is known of segment k in each phase; `bytes` is its current region of the tensor. */
  predicate SegmentOk(t: Task, k: nat, phase: Phase, entry: Entry, bytes: Bytes)
    requires t.Valid() && k < t.h.segments && |bytes| == Length(t.h, k)
  {
    match phase
    case Waiting => bytes == Segment(t.h, t.input, k)
    case InFlight(_, input) => input == Prepared(t, k)
    case Finished(p) => Good(t, k, entry, p)
    case Parking(p) => Good(t, k, entry, p)
    case Parked => ParkedOk(t, k, entry, bytes)
    case Returned => ParkedOk(t, k, entry, bytes)
    case Last(Some(p)) => Good(t, k, entry, p)
    case Last(None) => ParkedOk(t, k, entry, bytes)
    case Assembled(_) => true
  }

  /** The payload of segment k is parked intact at the start of its own region. */
  predicate ParkedOk(t: Task, k: nat, entry: Entry, bytes: Bytes)
    requires t.Valid() && k < t.h.segments && |bytes| == Length(t.h, k)
  {
    entry.length <= Length(t.h, k) && Good(t, k, entry, bytes[..entry.length])
  }

  /** When one segment is to assemble the block, every other one has parked its payload and left. */
  predicate Alone(phases: seq<Phase>) {
    forall j, k :: 0 <= j < |phases| && 0 <= k < |phases| && j != k && Final(phases[j]) ==> phases[k].Returned?
  }

  predicate AllOk(t: Task, s: State)
    requires Shape(t, s)
  {
    forall k :: 0 <= k < t.h.segments ==> SegmentOk(t, k, s.phases[k], s.entries[k], Segment(t.h, s.data, k))
  }

  predicate Counting(s: State) {
    && s.pending == |Counted(s.phases)|
    && (NoneFinal(s.phases) ==> s.pending >= 1)
  }

  predicate NoneFinal(phases: seq<Phase>) { forall k :: 0 <= k < |phases| ==> !Final(phases[k]) }

  predicate SomeAssembled(phases: seq<Phase>) { exists k :: 0 <= k < |phases| && phases[k].Assembled? }

  predicate OutsOk(t: Task, s: State)
    requires t.Valid()
  {
    if SomeAssembled(s.phases) then |s.outs| == 1 && GoodBlock(t, s.outs[0]) else s.outs == []
  }

  predicate Inv(t: Task, s: State) {
    Shape(t, s) && AllOk(t, s) && Alone(s.phases) && Counting(s) && OutsOk(t, s)
  }

  // ---- runs ----

  ghost predicate Step(t: Task, s: State, e: Event, s': State) {
    Shape(t, s) && Enabled(t, s, e) && s' == After(t, s, e)
  }

  /** The states `ss` are a run: any interleaving of enabled events from the initial state. */
  ghost predicate Run(t: Task, ss: seq<State>, es: seq<Event>) {
    && t.Valid()
    && |ss| == |es| + 1
    && ss[0] == Init(t)
    && forall i :: 0 <= i < |es| ==> Step(t, ss[i], es[i], ss[i + 1])
  }

  // ---- every step keeps the invariant ----

  lemma CountedUpdate(phases: seq<Phase>, k: nat, p: Phase)
    requires k < |phases|
    ensures Counts(p) ==> Counted(phases[k := p]) == Counted(phases) + {k}
    ensures !Counts(p) ==> Counted(phases[k := p]) == Counted(phases) - {k}
  {
  }

  /** If only k is counted, all others have left or are final. */
  lemma OnlyOneCounted(phases: seq<Phase>, k: nat)
    requires k < |phases| && Counts(phases[k]) && |Counted(phases)| == 1
    ensures forall j :: 0 <= j < |phases| && j != k ==> !Counts(phases[j])
  {
    forall j | 0 <= j < |phases| && j != k ensures !Counts(phases[j]) {
      if Counts(phases[j]) {
        assert {j, k} <= Counted(phases);
        Sets.SizeAtMost({j, k}, Counted(phases));
      }
    }
  }

  /** A step that touches only segment k keeps the others' facts. */
  lemma UpdateKeeps(t: Task, s: State, s': State, k: nat)
    requires Inv(t, s) && Shape(t, s') && k < t.h.segments
    requires s'.phases == s.phases[k := s'.phases[k]] && s'.entries == s.entries[k := s'.entries[k]]
    requires forall j :: 0 <= j < t.h.segments && j != k ==> Segment(t.h, s'.data, j) == Segment(t.h, s.data, j)
    requires SegmentOk(t, k, s'.phases[k], s'.entries[k], Segment(t.h, s'.data, k))
    ensures AllOk(t, s')
  {
    forall j | 0 <= j < t.h.segments
      ensures SegmentOk(t, j, s'.phases[j], s'.entries[j], Segment(t.h, s'.data, j))
    {
      if j != k {
        assert SegmentOk(t, j, s.phases[j], s.entries[j], Segment(t.h, s.data, j));
      }
    }
  }

  /** A step of segment k that stays counted and does not become final keeps the counter and the block. */
  lemma OrdinaryStep(t: Task, s: State, s': State, k: nat)
    requires Inv(t, s) && Shape(t, s') && k < t.h.segments
    requires s'.phases == s.phases[k := s'.phases[k]] && s'.pending == s.pending && s'.outs == s.outs
    requires Counts(s.phases[k]) && Counts(s'.phases[k])
    requires !Final(s.phases[k]) && !Final(s'.phases[k]) && !s.phases[k].Returned? && !s'.phases[k].Returned?
    ensures Alone(s'.phases) && Counting(s') && OutsOk(t, s')
  {
    CountedUpdate(s.phases, k, s'.phases[k]);
    assert Counted(s'.phases) == Counted(s.phases);
    assert forall j :: 0 <= j < |s.phases| ==> !Final(s.phases[j]);
    assert forall j :: 0 <= j < |s'.phases| ==> !Final(s'.phases[j]);
  }

  lemma SubmitKeeps(t: Task, s: State, k: nat, backend: Backend)
    requires Inv(t, s) && Enabled(t, s, Submit(k, backend))
    ensures Inv(t, After(t, s, Submit(k, backend)))
  {
    var s' := After(t, s, Submit(k, backend));
    assert SegmentOk(t, k, s.phases[k], s.entries[k], Segment(t.h, s.data, k));
    UpdateKeeps(t, s, s', k);
    OrdinaryStep(t, s, s', k);
  }

  lemma FinishKeeps(t: Task, s: State, k: nat, stream: Bytes)
    requires Inv(t, s) && Enabled(t, s, Finish(k, stream))
    ensures Inv(t, After(t, s, Finish(k, stream)))
  {
    var s' := After(t, s, Finish(k, stream));
    assert SegmentOk(t, k, s.phases[k], s.entries[k], Segment(t.h, s.data, k));
    CompletionIsGood(t, k, s.phases[k].backend, stream);
    UpdateKeeps(t, s, s', k);
    OrdinaryStep(t, s, s', k);
  }

  lemma ParkKeeps(t: Task, s: State, k: nat)
    requires Inv(t, s) && Enabled(t, s, Park(k))
    ensures Inv(t, After(t, s, Park(k)))
  {
    var s', p := After(t, s, Park(k)), s.phases[k].payload;
    assert SegmentOk(t, k, s.phases[k], s.entries[k], Segment(t.h, s.data, k));
    RegionFits(t.h, k);
    forall j | 0 <= j < t.h.segments && j != k ensures Segment(t.h, s'.data, j) == Segment(t.h, s.data, j) {
      OtherSegmentsKept(t.h, s.data, k, p, j);
    }
    ReadWritten(s.data, Start(t.h, k), p);
    assert Segment(t.h, s'.data, k)[..|p|] == p;
    UpdateKeeps(t, s, s', k);
    OrdinaryStep(t, s, s', k);
  }

  /** Segment k reaches Last or leaves: the two outcomes of reading or decrementing `pending`. */
  lemma BecomesLast(t: Task, s: State, k: nat)
    requires Inv(t, s) && k < t.h.segments && Counts(s.phases[k]) && !Final(s.phases[k]) && s.pending <= 1
    ensures s.pending == 1
    ensures forall j :: 0 <= j < t.h.segments && j != k ==> s.phases[j].Returned?
  {
    assert k in Counted(s.phases);
    assert |Counted(s.phases)| == 1;
    OnlyOneCounted(s.phases, k);
    forall j | 0 <= j < t.h.segments && j != k ensures s.phases[j].Returned? {
      assert !Counts(s.phases[j]);
      assert !Final(s.phases[j]);
    }
  }

  lemma NoneAssembled(s: State, k: nat)
    requires k < |s.phases| && !s.phases[k].Assembled?
    requires forall j :: 0 <= j < |s.phases| && j != k ==> s.phases[j].Returned?
    ensures !SomeAssembled(s.phases)
  {
  }

  lemma LoadKeeps(t: Task, s: State, k: nat)
    requires Inv(t, s) && Enabled(t, s, Load(k))
    ensures Inv(t, After(t, s, Load(k)))
  {
    var s' := After(t, s, Load(k));
    assert SegmentOk(t, k, s.phases[k], s.entries[k], Segment(t.h, s.data, k));
    UpdateKeeps(t, s, s', k);
    if s.pending > 1 {
      OrdinaryStep(t, s, s', k);
    } else {
      BecomesLast(t, s, k);
      CountedUpdate(s.phases, k, s'.phases[k]);
      assert Counted(s'.phases) == Counted(s.phases);
      NoneAssembled(s, k);
      NoneAssembled(s', k);
      assert Final(s'.phases[k]);
    }
  }

  lemma DecrementKeeps(t: Task, s: State, k: nat)
    requires Inv(t, s) && Enabled(t, s, Decrement(k))
    ensures Inv(t, After(t, s, Decrement(k)))
  {
    var s' := After(t, s, Decrement(k));
    assert SegmentOk(t, k, s.phases[k], s.entries[k], Segment(t.h, s.data, k));
    UpdateKeeps(t, s, s', k);
    CountedUpdate(s.phases, k, s'.phases[k]);
    assert k in Counted(s.phases) && Counted(s'.phases) == Counted(s.phases) - {k};
    if s.pending > 1 {
      LeavingKeeps(s.phases, k);
    } else {
      BecomesLast(t, s, k);
      NoneAssembled(s, k);
      NoneAssembled(s', k);
      assert Final(s'.phases[k]);
    }
  }

  lemma LeavingKeeps(phases: seq<Phase>, k: nat)
    requires Alone(phases) && k < |phases| && !Final(phases[k]) && !phases[k].Returned?
    ensures Alone(phases[k := Returned])
    ensures NoneFinal(phases[k := Returned])
    ensures !SomeAssembled(phases) && !SomeAssembled(phases[k := Returned])
  {
    assert forall j :: 0 <= j < |phases| ==> !Final(phases[j]);
  }

  /** At assembly every payload is good: the others' are parked, the assembler's is parked or in hand. */
  lemma PiecesAreGood(t: Task, s: State, k: nat)
    requires Inv(t, s) && Enabled(t, s, Assemble(k))
    ensures forall j :: 0 <= j < t.h.segments ==> Good(t, j, s.entries[j], Pieces(t, s, k, s.phases[k].inHand)[j])
  {
    forall j | 0 <= j < t.h.segments
      ensures Good(t, j, s.entries[j], Pieces(t, s, k, s.phases[k].inHand)[j])
    {
      assert SegmentOk(t, j, s.phases[j], s.entries[j], Segment(t.h, s.data, j));
      if j != k {
        assert Final(s.phases[k]);
      }
    }
  }

  /** Assembling neither changes who is counted nor leaves a second assembler. */
  lemma AssembledAlone(phases: seq<Phase>, k: nat)
    requires Alone(phases) && k < |phases| && phases[k].Last?
    ensures var phases' := phases[k := Assembled(phases[k].inHand.Some?)];
            Alone(phases') && Counted(phases') == Counted(phases) && Final(phases'[k]) && phases'[k].Assembled?
    ensures !SomeAssembled(phases)
  {
    var phases' := phases[k := Assembled(phases[k].inHand.Some?)];
    CountedUpdate(phases, k, phases'[k]);
    assert Final(phases[k]);
  }

  lemma AssembleKeeps(t: Task, s: State, k: nat)
    requires Inv(t, s) && Enabled(t, s, Assemble(k))
    ensures Inv(t, After(t, s, Assemble(k)))
  {
    var s', inHand := After(t, s, Assemble(k)), s.phases[k].inHand;
    UpdateKeeps(t, s, s', k);
    AssembledAlone(s.phases, k);
    var b := Assembly(t.h, s.entries, Pieces(t, s, k, inHand));
    assert GoodBlock(t, b) by {
      PiecesAreGood(t, s, k);
      AssemblyIsGood(t, s.entries, Pieces(t, s, k, inHand));
    }
    assert s'.outs == [b];
  }

  lemma StepKeeps(t: Task, s: State, e: Event)
    requires Inv(t, s) && Enabled(t, s, e)
    ensures Inv(t, After(t, s, e))
  {
    match e
    case Submit(k, backend) => SubmitKeeps(t, s, k, backend);
    case Finish(k, stream) => FinishKeeps(t, s, k, stream);
    case Load(k) => LoadKeeps(t, s, k);
    case Park(k) => ParkKeeps(t, s, k);
    case Decrement(k) => DecrementKeeps(t, s, k);
    case Assemble(k) => AssembleKeeps(t, s, k);
  }

  lemma {:induction false} AllCounted(phases: seq<Phase>)
    requires forall k :: 0 <= k < |phases| ==> Counts(phases[k])
    ensures |Counted(phases)| == |phases|
  {
    if phases != [] {
      var n := |phases| - 1;
      AllCounted(phases[..n]);
      assert Counted(phases) == Counted(phases[..n]) + {n};
    }
  }

  lemma InitOk(t: Task)
    requires t.Valid()
    ensures Inv(t, Init(t))
  {
    SegmentsFit(t.h);
    AllCounted(Init(t).phases);
  }

  /** Every reachable state satisfies the invariant. */
  lemma {:induction false} RunsAreSafe(t: Task, ss: seq<State>, es: seq<Event>, i: nat)
    requires Run(t, ss, es) && i < |ss|
    ensures Inv(t, ss[i])
  {
    if i == 0 {
      InitOk(t);
    } else {
      RunsAreSafe(t, ss, es, i - 1);
      assert Step(t, ss[i - 1], es[i - 1], ss[i]);
      StepKeeps(t, ss[i - 1], es[i - 1]);
    }
  }

  // ---- what follows for whole runs ----

  /** A segment that was not read yet still has its original bytes, whatever the others parked. */
  lemma UnreadIsIntact(t: Task, ss: seq<State>, es: seq<Event>, i: nat, k: nat)
    requires Run(t, ss, es) && i < |ss| && k < t.h.segments && |ss[i].phases| == t.h.segments
    requires ss[i].phases[k].Waiting?
    ensures |ss[i].data| == t.h.origSize && Segment(t.h, ss[i].data, k) == Segment(t.h, t.input, k)
  {
    RunsAreSafe(t, ss, es, i);
    assert SegmentOk(t, k, ss[i].phases[k], ss[i].entries[k], Segment(t.h, ss[i].data, k));
  }

  lemma {:induction false} OutsGrow(t: Task, ss: seq<State>, es: seq<Event>, i: nat, j: nat)
    requires Run(t, ss, es) && i <= j < |ss|
    ensures |ss[i].outs| <= |ss[j].outs|
    decreases j - i
  {
    if i < j {
      assert Step(t, ss[i], es[i], ss[i + 1]);
      OutsGrow(t, ss, es, i + 1, j);
    }
  }

  /** No run assembles the block twice. */
  lemma OneAssembler(t: Task, ss: seq<State>, es: seq<Event>, i: nat, j: nat)
    requires Run(t, ss, es) && i < |es| && j < |es| && es[i].Assemble? && es[j].Assemble?
    ensures i == j
  {
    if i < j { AssembledBefore(t, ss, es, i, j); }
    if j < i { AssembledBefore(t, ss, es, j, i); }
  }

  lemma AssembledBefore(t: Task, ss: seq<State>, es: seq<Event>, i: nat, j: nat)
    requires Run(t, ss, es) && i < j < |es| && es[i].Assemble?
    ensures !es[j].Assemble?
  {
    assert Step(t, ss[i], es[i], ss[i + 1]) && Step(t, ss[j], es[j], ss[j + 1]);
    OutsGrow(t, ss, es, i + 1, j);
    RunsAreSafe(t, ss, es, j + 1);
  }

  /** When a segment assembles the block, every other one has left with its payload parked intact in its own region,
      and the block it makes is good and at most payload start + tensor bytes long. */
  lemma AssemblyMoment(t: Task, ss: seq<State>, es: seq<Event>, i: nat)
    requires Run(t, ss, es) && i < |es| && es[i].Assemble?
    ensures Shape(t, ss[i])
    ensures forall j :: 0 <= j < t.h.segments && j != es[i].k ==>
              ss[i].phases[j].Returned? && ParkedOk(t, j, ss[i].entries[j], Segment(t.h, ss[i].data, j))
    ensures |ss[i + 1].outs| == 1 && GoodBlock(t, ss[i + 1].outs[0])
    ensures PayloadStart(t.h.segments) + |ss[i + 1].outs[0].payloads| <= PayloadStart(t.h.segments) + t.h.origSize
  {
    var s, k := ss[i], es[i].k;
    assert Step(t, s, es[i], ss[i + 1]);
    RunsAreSafe(t, ss, es, i);
    RunsAreSafe(t, ss, es, i + 1);
    forall j | 0 <= j < t.h.segments && j != k
      ensures s.phases[j].Returned? && ParkedOk(t, j, s.entries[j], Segment(t.h, s.data, j))
    {
      assert Final(s.phases[k]);
      assert SegmentOk(t, j, s.phases[j], s.entries[j], Segment(t.h, s.data, j));
    }
    assert ss[i + 1].phases[k].Assembled?;
  }

  predicate AllReturned(phases: seq<Phase>) {
    forall k :: 0 <= k < |phases| ==> phases[k].Returned? || phases[k].Assembled?
  }

  /** Once every completion callback has returned, exactly one block was made and it is good. */
  lemma EveryRunMakesOneBlock(t: Task, ss: seq<State>, es: seq<Event>)
    requires Run(t, ss, es) && AllReturned(ss[|es|].phases)
    ensures |ss[|es|].outs| == 1 && GoodBlock(t, ss[|es|].outs[0])
  {
    var s := ss[|es|];
    RunsAreSafe(t, ss, es, |es|);
    if s.pending >= 1 {
      assert Counted(s.phases) != {};
      var k :| k in Counted(s.phases);
      assert s.phases[k].Assembled?;
    } else {
      var k :| 0 <= k < |s.phases| && Final(s.phases[k]);
      assert s.phases[k].Assembled?;
    }
  }

  /** No callback is ever stuck: every segment that is not done has an enabled step. In flight it waits only for the
      backend to deliver some stream of its input. */
  lemma NothingBlocks(t: Task, s: State, k: nat, stream: Bytes)
    requires Inv(t, s) && k < t.h.segments && !s.phases[k].Returned? && !s.phases[k].Assembled?
    requires |stream| > 0
    requires s.phases[k].InFlight? ==>
               Decodes(t.decode, s.phases[k].backend.IAA?, stream, Prepared(t, k)[..ZipLen(t, k)])
    ensures exists e :: Enabled(t, s, e) && e.k == k
  {
    assert SegmentOk(t, k, s.phases[k], s.entries[k], Segment(t.h, s.data, k));
    RegionFits(t.h, k);
    match s.phases[k]
    case Waiting => assert Enabled(t, s, Submit(k, CPU));
    case InFlight(_, _) => assert Enabled(t, s, Finish(k, stream));
    case Finished(_) => assert Enabled(t, s, Load(k));
    case Parking(_) => assert Enabled(t, s, Park(k));
    case Parked => assert Enabled(t, s, Decrement(k));
    case Last(_) =>
      forall j | 0 <= j < t.h.segments ensures s.entries[j].length <= Length(t.h, j) {
        assert Final(s.phases[k]);
        assert SegmentOk(t, j, s.phases[j], s.entries[j], Segment(t.h, s.data, j));
      }
      assert Enabled(t, s, Assemble(k));
  }

  // ---- when compression leaves the tensor as it was ----

  /** A tensor of one segment is never written: no run ever parks. */
  lemma {:induction false} OneSegmentIsUntouched(t: Task, ss: seq<State>, es: seq<Event>, i: nat)
    requires Run(t, ss, es) && i < |ss| && t.h.segments == 1
    ensures ss[i].data == t.input && ss[i].pending <= 1
    ensures |ss[i].phases| == 1 && !ss[i].phases[0].Parking?
  {
    if i > 0 {
      OneSegmentIsUntouched(t, ss, es, i - 1);
      assert Step(t, ss[i - 1], es[i - 1], ss[i]);
    }
  }

  /** Has segment k written its payload over its region? */
  predicate WasParked(p: Phase) { p.Parked? || p.Returned? || p == Last(None) || p == Assembled(false) }

  /** A region holds its original bytes until its own segment parks. */
  lemma {:induction false} UnparkedIsIntact(t: Task, ss: seq<State>, es: seq<Event>, i: nat, k: nat)
    requires Run(t, ss, es) && i < |ss| && k < t.h.segments && |ss[i].phases| == t.h.segments && !WasParked(ss[i].phases[k])
    ensures |ss[i].data| == t.h.origSize && Segment(t.h, ss[i].data, k) == Segment(t.h, t.input, k)
  {
    RunsAreSafe(t, ss, es, i);
    if i > 0 {
      var s, e := ss[i - 1], es[i - 1];
      RunsAreSafe(t, ss, es, i - 1);
      assert Step(t, s, e, ss[i]);
      UnparkedIsIntact(t, ss, es, i - 1, k);
      if e.Park? { OtherSegmentsKept(t.h, s.data, e.k, s.phases[e.k].payload, k); }
    }
  }

  /** What the Park step i writes, and whether it is what the input has there. */
  ghost predicate ParksInput(t: Task, s: State, e: Event)
    requires Shape(t, s) && Enabled(t, s, e) && e.Park?
  {
    var p := s.phases[e.k].payload;
    RegionFits(t.h, e.k);
    Slice(t.input, Start(t.h, e.k), |p|) == p
  }

  lemma WriteSame(data: Bytes, input: Bytes, at: nat, len: nat, p: Bytes)
    requires |data| == |input| && at + len <= |data| && |p| <= len && Slice(data, at, len) == Slice(input, at, len)
    ensures Write(data, at, p) == input <==> data == input && Slice(input, at, |p|) == p
  {
    if Write(data, at, p) == input {
      ReadWritten(data, at, p);
      forall x | 0 <= x < |data| ensures data[x] == input[x] {
        if at <= x < at + len {
          assert Slice(data, at, len)[x - at] == Slice(input, at, len)[x - at];
        } else {
          assert Write(data, at, p)[x] == data[x];
        }
      }
    }
  }

  lemma ParkChanges(t: Task, ss: seq<State>, es: seq<Event>, i: nat)
    requires Run(t, ss, es) && i < |es| && es[i].Park?
    ensures Shape(t, ss[i]) && Enabled(t, ss[i], es[i])
    ensures ss[i + 1].data == t.input <==> ss[i].data == t.input && ParksInput(t, ss[i], es[i])
  {
    var s, k := ss[i], es[i].k;
    assert Step(t, s, es[i], ss[i + 1]);
    UnparkedIsIntact(t, ss, es, i, k);
    RegionFits(t.h, k);
    WriteSame(s.data, t.input, Start(t.h, k), Length(t.h, k), s.phases[k].payload);
  }

  ghost predicate StepHarmless(t: Task, s: State, e: Event) {
    e.Park? ==> Shape(t, s) && Enabled(t, s, e) && ParksInput(t, s, e)
  }

  /** In every run: the tensor is as it was exactly as long as every payload parked so far equals the bytes of the input
      it was parked over. */
  lemma {:induction false} UnchangedExactlyWhen(t: Task, ss: seq<State>, es: seq<Event>, i: nat)
    requires Run(t, ss, es) && i < |ss|
    ensures ss[i].data == t.input <==> forall j :: 0 <= j < i ==> StepHarmless(t, ss[j], es[j])
  {
    if i > 0 {
      UnchangedExactlyWhen(t, ss, es, i - 1);
      assert Step(t, ss[i - 1], es[i - 1], ss[i]);
      if es[i - 1].Park? { ParkChanges(t, ss, es, i - 1); }
      assert (forall j :: 0 <= j < i ==> StepHarmless(t, ss[j], es[j])) <==>
             (forall j :: 0 <= j < i - 1 ==> StepHarmless(t, ss[j], es[j])) && StepHarmless(t, ss[i - 1], es[i - 1]);
    }
  }

  /** A segment that has parked did so in a step of the run. */
  lemma {:induction false} ParkedInAStep(t: Task, ss: seq<State>, es: seq<Event>, i: nat, k: nat)
    requires Run(t, ss, es) && i < |ss| && k < |ss[i].phases| && WasParked(ss[i].phases[k])
    ensures exists j :: 0 <= j < i && es[j] == Park(k)
  {
    RunsAreSafe(t, ss, es, i);
    if i > 0 {
      RunsAreSafe(t, ss, es, i - 1);
      assert Step(t, ss[i - 1], es[i - 1], ss[i]);
      OnlyByParking(t, ss[i - 1], es[i - 1], k);
      if es[i - 1] != Park(k) { ParkedInAStep(t, ss, es, i - 1, k); }
    }
  }

  lemma OnlyByParking(t: Task, s: State, e: Event, k: nat)
    requires Shape(t, s) && Enabled(t, s, e) && k < t.h.segments && WasParked(After(t, s, e).phases[k])
    ensures e == Park(k) || WasParked(s.phases[k])
  {
  }

  /** With more than one segment every finished run parks; with one segment none does. */
  lemma FinishedRunsPark(t: Task, ss: seq<State>, es: seq<Event>)
    requires Run(t, ss, es) && AllReturned(ss[|es|].phases)
    ensures (exists j :: 0 <= j < |es| && es[j].Park?) <==> t.h.segments > 1
  {
    var s := ss[|es|];
    RunsAreSafe(t, ss, es, |es|);
    SegmentsFit(t.h);
    if t.h.segments > 1 {
      var k := if s.phases[0].Returned? then 0 else 1;
      assert Final(s.phases[0]) ==> s.phases[1].Returned?;
      ParkedInAStep(t, ss, es, |es|, k);
    } else {
      forall j | 0 <= j < |es| ensures !es[j].Park? {
        OneSegmentIsUntouched(t, ss, es, j);
        assert Step(t, ss[j], es[j], ss[j + 1]);
      }
    }
  }

  /** Some run parks exactly if there is more than one segment, whatever stream the backend delivers for segment 0. */
  lemma SomeRunParks(t: Task, backend: Backend, stream: Bytes)
    requires t.Valid() && |stream| > 0
    requires t.h.segments > 0 && Decodes(t.decode, backend.IAA?, stream, Prepared(t, 0)[..ZipLen(t, 0)])
    ensures (exists ss: seq<State>, es: seq<Event>, i :: Run(t, ss, es) && 0 <= i < |es| && es[i].Park?) <==> t.h.segments > 1
  {
    if t.h.segments > 1 {
      var ss, es := ParkingRun(t, backend, stream);
      assert Run(t, ss, es) && es[3].Park?;
    } else {
      forall ss: seq<State>, es: seq<Event>, i | Run(t, ss, es) && 0 <= i < |es| ensures !es[i].Park? {
        OneSegmentIsUntouched(t, ss, es, i);
        assert Step(t, ss[i], es[i], ss[i + 1]);
      }
    }
  }

  /** The shortest such run. */
  lemma ParkingRun(t: Task, backend: Backend, stream: Bytes) returns (ss: seq<State>, es: seq<Event>)
    requires t.Valid() && t.h.segments > 1 && |stream| > 0
    requires Decodes(t.decode, backend.IAA?, stream, Prepared(t, 0)[..ZipLen(t, 0)])
    ensures Run(t, ss, es) && |es| == 4 && es[3] == Park(0)
    ensures |ss[3].phases| > 0 && ss[3].phases[0].Parking?
    ensures |stream| < ZipLen(t, 0) ==> |ss[3].phases[0].payload| > 0 && ss[3].phases[0].payload[0] == stream[0]
  {
    var s0 := Init(t);
    var s1 := After(t, s0, Submit(0, backend));
    RegionFits(t.h, 0);
    assert s1.phases[0].input == Prepared(t, 0);
    var s2 := After(t, s1, Finish(0, stream));
    var s3 := After(t, s2, Load(0));
    assert s3.phases[0].Parking?;
    var s4 := After(t, s3, Park(0));
    es := [Submit(0, backend), Finish(0, stream), Load(0), Park(0)];
    ss := [s0, s1, s2, s3, s4];
  }

  /** So a stream that saves space and does not begin like the tensor makes a run that changes the tensor. */
  lemma ParkingOverwrites(t: Task, backend: Backend, stream: Bytes) returns (ss: seq<State>, es: seq<Event>)
    requires t.Valid() && t.h.segments > 1
    requires 0 < |stream| < ZipLen(t, 0)
    requires Decodes(t.decode, backend.IAA?, stream, Prepared(t, 0)[..ZipLen(t, 0)])
    requires stream[0] != Segment(t.h, t.input, 0)[0]
    ensures Run(t, ss, es) && ss[|es|].data != t.input
  {
    ss, es := ParkingRun(t, backend, stream);
    ParkChanges(t, ss, es, 3);
    RegionFits(t.h, 0);
    assert Slice(t.input, Start(t.h, 0), |ss[3].phases[0].payload|)[0] == Segment(t.h, t.input, 0)[0];
  }
}
