/** kv_zip_decompress_batch as a whole, for one block: the segments are sorted by the flags of the table, the stored ones
    placed by parallel_for and the others by the pipeline over the planned lanes. Whatever the finished runs look like, a
    segment is placed exactly once if some worker takes its kind and never if none does. */
module Decompress {
  import opened Wrappers
  import opened Arith
  import opened Buffers
  import opened DataShuffle
  import opened ZipLayout
  import opened ZipBlock
  import opened Unzip
  import P = Pipeline
  import L = LanePlan

  datatype Kind = Stored | Iaa | Other

  function KindOf(e: Entry): Kind { if e.stored then Stored else if e.iaa then Iaa else Other }

  /** The segments below n of one kind. */
  function Of(table: seq<Entry>, kind: Kind, n: nat): seq<nat>
    requires n <= |table|
  {
    if n == 0 then []
    else if KindOf(table[n - 1]) == kind then Of(table, kind, n - 1) + [n - 1] else Of(table, kind, n - 1)
  }

  /** The first loop of kv_zip_decompress_batch. */
  method SortSegments(table: seq<Entry>) returns (stored: seq<nat>, iaa: seq<nat>, others: seq<nat>)
    ensures stored == Of(table, Stored, |table|) && iaa == Of(table, Iaa, |table|) && others == Of(table, Other, |table|)
  {
    stored, iaa, others := [], [], [];
    for k := 0 to |table|
      invariant stored == Of(table, Stored, k) && iaa == Of(table, Iaa, k) && others == Of(table, Other, k)
    {
      if table[k].stored {
        stored := stored + [k];
      } else if table[k].iaa {
        iaa := iaa + [k];
      } else {
        others := others + [k];
      }
    }
  }

  lemma {:induction false} OfHas(table: seq<Entry>, kind: Kind, n: nat, k: nat)
    requires n <= |table|
    ensures k in Of(table, kind, n) <==> k < n && KindOf(table[k]) == kind
  {
    if n > 0 { OfHas(table, kind, n - 1, k); }
  }

  lemma {:induction false} OfRises(table: seq<Entry>, kind: Kind, n: nat)
    requires n <= |table|
    ensures forall i, j :: 0 <= i < j < |Of(table, kind, n)| ==> Of(table, kind, n)[i] < Of(table, kind, n)[j]
  {
    if n > 0 {
      OfRises(table, kind, n - 1);
      var front := Of(table, kind, n - 1);
      forall i | 0 <= i < |front| ensures front[i] < n - 1 {
        assert front[i] in front;
        OfHas(table, kind, n - 1, front[i]);
      }
    }
  }

  /** IAA segments first, then the others. */
  function Segs(table: seq<Entry>): seq<nat> { Of(table, Iaa, |table|) + Of(table, Other, |table|) }

  function IaaEnd(table: seq<Entry>): nat { |Of(table, Iaa, |table|)| }

  lemma SegsAre(table: seq<Entry>, i: nat)
    requires i < |Segs(table)|
    ensures Segs(table)[i] < |table| && KindOf(table[Segs(table)[i]]) == if i < IaaEnd(table) then Iaa else Other
  {
    var kind := if i < IaaEnd(table) then Iaa else Other;
    assert Segs(table)[i] in Of(table, kind, |table|);
    OfHas(table, kind, |table|, Segs(table)[i]);
  }

  // ---- lanes ----

  function IaaLanes(lanes: seq<L.Lane>): seq<bool> {
    seq(|lanes|, l requires 0 <= l < |lanes| => lanes[l].backend.IAA?)
  }

  /** A backend has a lane in the plan exactly if it has a worker. */
  lemma HasLane(c: L.Config, lanes: seq<L.Lane>, b: Backend)
    requires c.Valid() && L.EachSlotOnce(c, lanes)
    ensures (exists j :: 0 <= j < |lanes| && lanes[j].backend == b) <==> c.Count(b) > 0
  {
    if c.Count(b) > 0 {
      assert c.Count(b) * c.Depth(b) > 0;
      assert L.Driven(lanes, b, 0);
    } else {
      assert c.Count(b) * c.Depth(b) == 0;
    }
  }

  /** Some worker takes segments of this kind; copying needs none. */
  predicate Serves(c: L.Config, kind: Kind) {
    match kind
    case Stored => true
    case Iaa => c.iaa > 0
    case Other => c.qat + c.cpu > 0
  }

  predicate Served(c: L.Config, table: seq<Entry>) {
    forall k :: 0 <= k < |table| ==> Serves(c, KindOf(table[k]))
  }

  /** The IAXL_CHECKs before the pipeline ask whether the backends are enabled, not whether they have workers. */
  predicate Checked(env: L.Env, table: seq<Entry>) {
    && (Of(table, Iaa, |table|) != [] ==> env.iaaOn)
    && (Of(table, Other, |table|) != [] ==> env.qatOn || env.cpuOn)
  }

  lemma KindHasLane(c: L.Config, lanes: seq<L.Lane>, table: seq<Entry>, x: nat)
    requires c.Valid() && L.EachSlotOnce(c, lanes) && x < |Segs(table)|
    requires Serves(c, if x < IaaEnd(table) then Iaa else Other)
    ensures exists l :: 0 <= l < |lanes| && IaaLanes(lanes)[l] == (x < IaaEnd(table))
  {
    var b: Backend := if x < IaaEnd(table) then IAA else if c.qat > 0 then QAT else CPU;
    HasLane(c, lanes, b);
    var j :| 0 <= j < |lanes| && lanes[j].backend == b;
    assert IaaLanes(lanes)[j] == (x < IaaEnd(table));
  }

  // ---- placements ----

  ghost predicate InRange(jobs: seq<P.Job>, items: nat, lanes: nat) {
    forall j :: j in jobs ==> j.item < items && j.lane < lanes
  }

  /** The placements of a pipeline: segment segs[item], decoded by the backend of the lane. */
  function Places(segs: seq<nat>, lanes: seq<L.Lane>, jobs: seq<P.Job>): (r: seq<Place>)
    requires InRange(jobs, |segs|, |lanes|)
    ensures |r| == |jobs|
  {
    seq(|jobs|, i requires 0 <= i < |jobs| => assert jobs[i] in jobs; Place(segs[jobs[i].item], lanes[jobs[i].lane].backend))
  }

  /** Stored segments go through no backend; CPU stands for the thread that copies them. */
  function Copies(stored: seq<nat>, jobs: seq<P.Job>, threads: nat): (r: seq<Place>)
    requires InRange(jobs, |stored|, threads)
    ensures |r| == |jobs|
  {
    seq(|jobs|, i requires 0 <= i < |jobs| => assert jobs[i] in jobs; Place(stored[jobs[i].item], CPU))
  }

  /** Completed jobs of a run of one or two adjoining cursors are in range. */
  lemma JobsInRange(g: P.Config, ss: seq<P.State>, es: seq<P.Event>, n: nat)
    requires P.Run(g, ss, es) && |g.lo| == |g.hi| && forall c :: 0 <= c < |g.hi| ==> g.hi[c] <= n
    ensures InRange(ss[|es|].completed, n, |g.cursorOf|)
  {
    var s := ss[|es|];
    P.RunsAreSafe(g, ss, es, |es|);
    forall j | j in s.completed ensures j.item < n && j.lane < |g.cursorOf| {
      assert P.Claimed(g, s, j);
    }
  }

  /** A finished pipeline over the planned lanes placed every compressed segment of a kind that is served. */
  lemma PipelineCovers(c: L.Config, lanes: seq<L.Lane>, table: seq<Entry>, ss: seq<P.State>, es: seq<P.Event>, k: nat)
    requires c.Valid() && L.EachSlotOnce(c, lanes) && k < |table| && KindOf(table[k]) != Stored && Serves(c, KindOf(table[k]))
    requires P.Run(P.TwoCursors(IaaLanes(lanes), IaaEnd(table), |Segs(table)|), ss, es) && P.AllRetired(ss[|es|])
    requires InRange(ss[|es|].completed, |Segs(table)|, |lanes|)
    ensures Covered(Places(Segs(table), lanes, ss[|es|].completed), k)
  {
    var segs, jobs := Segs(table), ss[|es|].completed;
    OfHas(table, KindOf(table[k]), |table|, k);
    assert k in segs;
    var x: nat :| x < |segs| && segs[x] == k;
    SegsAre(table, x);
    KindHasLane(c, lanes, table, x);
    P.ItemsReachTheirBackend(IaaLanes(lanes), IaaEnd(table), |segs|, ss, es, x);
    var l: nat :| l < |IaaLanes(lanes)| && IaaLanes(lanes)[l] == (x < IaaEnd(table)) && P.Job(x, l) in jobs;
    var i :| 0 <= i < |jobs| && jobs[i] == P.Job(x, l);
    assert Places(segs, lanes, jobs)[i].k == k;
  }

  /** It places nothing else, and only on backends of the segment's kind that have a lane. */
  lemma PipelineRoutes(lanes: seq<L.Lane>, table: seq<Entry>, ss: seq<P.State>, es: seq<P.Event>, p: Place)
    requires P.Run(P.TwoCursors(IaaLanes(lanes), IaaEnd(table), |Segs(table)|), ss, es)
    requires InRange(ss[|es|].completed, |Segs(table)|, |lanes|)
    requires p in Places(Segs(table), lanes, ss[|es|].completed)
    ensures p.k < |table| && KindOf(table[p.k]) != Stored && Routed(table[p.k], p.backend)
    ensures exists j :: 0 <= j < |lanes| && lanes[j].backend == p.backend
  {
    var g, s := P.TwoCursors(IaaLanes(lanes), IaaEnd(table), |Segs(table)|), ss[|es|];
    P.RunsAreSafe(g, ss, es, |es|);
    var i :| 0 <= i < |s.completed| && Places(Segs(table), lanes, s.completed)[i] == p;
    var j := s.completed[i];
    assert j in s.completed && P.Claimed(g, s, j);
    SegsAre(table, j.item);
    assert g.cursorOf[j.lane] == if lanes[j.lane].backend.IAA? then 0 else 1;
  }

  lemma CopiesCover(table: seq<Entry>, threads: nat, ss: seq<P.State>, es: seq<P.Event>, k: nat)
    requires k < |table| && KindOf(table[k]) == Stored && threads > 0
    requires P.Run(P.OneCursor(threads, |Of(table, Stored, |table|)|), ss, es) && P.AllRetired(ss[|es|])
    requires InRange(ss[|es|].completed, |Of(table, Stored, |table|)|, threads)
    ensures Covered(Copies(Of(table, Stored, |table|), ss[|es|].completed, threads), k)
  {
    var stored, jobs := Of(table, Stored, |table|), ss[|es|].completed;
    OfHas(table, Stored, |table|, k);
    var x: nat :| x < |stored| && stored[x] == k;
    var g := P.OneCursor(threads, |stored|);
    P.EveryItemOnce(g, ss, es, 0, x);
    var l: nat :| l < |ss[|es|].lanes| && P.Job(x, l) in jobs;
    var i :| 0 <= i < |jobs| && jobs[i] == P.Job(x, l);
    assert Copies(stored, jobs, threads)[i].k == k;
  }

  lemma CopiesRoute(table: seq<Entry>, jobs: seq<P.Job>, threads: nat, p: Place)
    requires InRange(jobs, |Of(table, Stored, |table|)|, threads) && p in Copies(Of(table, Stored, |table|), jobs, threads)
    ensures p.k < |table| && KindOf(table[p.k]) == Stored
  {
    var stored := Of(table, Stored, |table|);
    var i :| 0 <= i < |jobs| && Copies(stored, jobs, threads)[i] == p;
    assert jobs[i] in jobs;
    assert stored[jobs[i].item] in stored;
    OfHas(table, Stored, |table|, p.k);
  }

  lemma CoveredInEither(a: seq<Place>, b: seq<Place>, k: nat)
    ensures Covered(a + b, k) <==> Covered(a, k) || Covered(b, k)
  {
    if Covered(a, k) {
      var i :| 0 <= i < |a| && a[i].k == k;
      assert (a + b)[i].k == k;
    }
    if Covered(b, k) {
      var i :| 0 <= i < |b| && b[i].k == k;
      assert (a + b)[|a| + i].k == k;
    }
  }

  // ---- one call ----

  /** The two runs of a call: parallel_for over the stored segments, then the pipeline over the others. */
  datatype Call = Call(ss: seq<P.State>, es: seq<P.Event>, tt: seq<P.State>, fs: seq<P.Event>)

  /** The threads of parallel_for. */
  function Copiers(c: L.Config, table: seq<Entry>): nat { Min(|Of(table, Stored, |table|)|, c.threads) }

  /** Both runs have come to their end, over the lanes of the plan. */
  ghost predicate Finished(c: L.Config, lanes: seq<L.Lane>, table: seq<Entry>, r: Call) {
    && c.Valid() && L.EachSlotOnce(c, lanes)
    && P.Run(P.OneCursor(Copiers(c, table), |Of(table, Stored, |table|)|), r.ss, r.es) && P.AllRetired(r.ss[|r.es|])
    && P.Run(P.TwoCursors(IaaLanes(lanes), IaaEnd(table), |Segs(table)|), r.tt, r.fs) && P.AllRetired(r.tt[|r.fs|])
  }

  lemma RunsInRange(c: L.Config, lanes: seq<L.Lane>, table: seq<Entry>, r: Call)
    requires Finished(c, lanes, table, r)
    ensures InRange(r.ss[|r.es|].completed, |Of(table, Stored, |table|)|, Copiers(c, table))
    ensures InRange(r.tt[|r.fs|].completed, |Segs(table)|, |lanes|)
  {
    JobsInRange(P.OneCursor(Copiers(c, table), |Of(table, Stored, |table|)|), r.ss, r.es, |Of(table, Stored, |table|)|);
    JobsInRange(P.TwoCursors(IaaLanes(lanes), IaaEnd(table), |Segs(table)|), r.tt, r.fs, |Segs(table)|);
  }

  ghost function Copied(c: L.Config, lanes: seq<L.Lane>, table: seq<Entry>, r: Call): seq<Place>
    requires Finished(c, lanes, table, r)
  {
    RunsInRange(c, lanes, table, r);
    Copies(Of(table, Stored, |table|), r.ss[|r.es|].completed, Copiers(c, table))
  }

  ghost function Decoded(c: L.Config, lanes: seq<L.Lane>, table: seq<Entry>, r: Call): seq<Place>
    requires Finished(c, lanes, table, r)
  {
    RunsInRange(c, lanes, table, r);
    Places(Segs(table), lanes, r.tt[|r.fs|].completed)
  }

  /** The order in which a finished call placed the segments of a block. */
  ghost function Order(c: L.Config, lanes: seq<L.Lane>, table: seq<Entry>, r: Call): seq<Place>
    requires Finished(c, lanes, table, r)
  {
    Copied(c, lanes, table, r) + Decoded(c, lanes, table, r)
  }

  lemma CopiedRoutes(c: L.Config, lanes: seq<L.Lane>, table: seq<Entry>, r: Call, p: Place)
    requires Finished(c, lanes, table, r) && p in Copied(c, lanes, table, r)
    ensures p.k < |table| && KindOf(table[p.k]) == Stored
  {
    RunsInRange(c, lanes, table, r);
    CopiesRoute(table, r.ss[|r.es|].completed, Copiers(c, table), p);
  }

  lemma DecodedRoutes(c: L.Config, lanes: seq<L.Lane>, table: seq<Entry>, r: Call, p: Place)
    requires Finished(c, lanes, table, r) && p in Decoded(c, lanes, table, r)
    ensures p.k < |table| && KindOf(table[p.k]) != Stored && Routed(table[p.k], p.backend)
    ensures Serves(c, KindOf(table[p.k]))
  {
    RunsInRange(c, lanes, table, r);
    PipelineRoutes(lanes, table, r.tt, r.fs, p);
    HasLane(c, lanes, p.backend);
  }

  /** Every placement is routed. */
  lemma OrderRoutes(c: L.Config, lanes: seq<L.Lane>, table: seq<Entry>, r: Call, p: Place)
    requires Finished(c, lanes, table, r) && p in Order(c, lanes, table, r)
    ensures p.k < |table| && Routed(table[p.k], p.backend)
  {
    if p in Copied(c, lanes, table, r) {
      CopiedRoutes(c, lanes, table, r, p);
    } else {
      DecodedRoutes(c, lanes, table, r, p);
    }
  }

  lemma CopiedCovers(c: L.Config, lanes: seq<L.Lane>, table: seq<Entry>, r: Call, k: nat)
    requires Finished(c, lanes, table, r) && k < |table|
    ensures Covered(Copied(c, lanes, table, r), k) <==> KindOf(table[k]) == Stored
  {
    var order := Copied(c, lanes, table, r);
    RunsInRange(c, lanes, table, r);
    if KindOf(table[k]) == Stored {
      OfHas(table, Stored, |table|, k);
      assert |Of(table, Stored, |table|)| > 0;
      CopiesCover(table, Copiers(c, table), r.ss, r.es, k);
    } else if Covered(order, k) {
      var i :| 0 <= i < |order| && order[i].k == k;
      CopiedRoutes(c, lanes, table, r, order[i]);
    }
  }

  lemma DecodedCovers(c: L.Config, lanes: seq<L.Lane>, table: seq<Entry>, r: Call, k: nat)
    requires Finished(c, lanes, table, r) && k < |table|
    ensures Covered(Decoded(c, lanes, table, r), k) <==> KindOf(table[k]) != Stored && Serves(c, KindOf(table[k]))
  {
    var order := Decoded(c, lanes, table, r);
    RunsInRange(c, lanes, table, r);
    if KindOf(table[k]) != Stored && Serves(c, KindOf(table[k])) {
      PipelineCovers(c, lanes, table, r.tt, r.fs, k);
    } else if Covered(order, k) {
      var i :| 0 <= i < |order| && order[i].k == k;
      DecodedRoutes(c, lanes, table, r, order[i]);
    }
  }

  /** Every finished call places a segment exactly if some worker takes its kind. */
  lemma PlacedExactlyWhen(c: L.Config, lanes: seq<L.Lane>, table: seq<Entry>, r: Call, k: nat)
    requires Finished(c, lanes, table, r) && k < |table|
    ensures Covered(Order(c, lanes, table, r), k) <==> Serves(c, KindOf(table[k]))
  {
    CopiedCovers(c, lanes, table, r, k);
    DecodedCovers(c, lanes, table, r, k);
    CoveredInEither(Copied(c, lanes, table, r), Decoded(c, lanes, table, r), k);
  }

  /** So the placements are complete exactly if every kind of segment that occurs is served. */
  lemma CompleteExactlyWhen(t: Task, b: Block, c: L.Config, lanes: seq<L.Lane>, r: Call)
    requires |b.table| == t.h.segments && Finished(c, lanes, b.table, r)
    ensures Complete(t, b, Order(c, lanes, b.table, r)) <==> Served(c, b.table)
  {
    var order := Order(c, lanes, b.table, r);
    forall p | p in order ensures p.k < t.h.segments && Routed(b.table[p.k], p.backend) {
      OrderRoutes(c, lanes, b.table, r, p);
    }
    forall k | 0 <= k < t.h.segments ensures Covered(order, k) <==> Serves(c, KindOf(b.table[k])) {
      PlacedExactlyWhen(c, lanes, b.table, r, k);
    }
  }

  /** The call returns normally, with each segment masked if its kind is served and as the destination had it if not. */
  lemma EachSegmentAfterwards(t: Task, b: Block, dst: Bytes, c: L.Config, lanes: seq<L.Lane>, r: Call, k: nat)
    requires t.Valid() && Aligned(t.h) && GoodBlock(t, b) && |dst| == t.h.origSize && Finished(c, lanes, b.table, r)
    requires k < t.h.segments
    ensures forall p :: p in Order(c, lanes, b.table, r) ==> p.k < t.h.segments
    ensures var out := PlaceAll(t.decode, b, dst, Order(c, lanes, b.table, r));
            && out.Some?
            && Segment(t.h, out.value, k) ==
               if Serves(c, KindOf(b.table[k])) then Segment(t.h, Masked(t.input, t.mask), k) else Segment(t.h, dst, k)
  {
    var order := Order(c, lanes, b.table, r);
    forall p | p in order ensures p.k < t.h.segments && Routed(b.table[p.k], p.backend) {
      OrderRoutes(c, lanes, b.table, r, p);
    }
    AnyOrder(t, b, dst, order, k);
    MaskedSegment(t.h, t.input, t.mask, k);
    PlacedExactlyWhen(c, lanes, b.table, r, k);
  }

  /** Main result: every finished call over the planned lanes turns the destination into the masked tensor exactly if the
      destination already agreed with it on the segments of the kinds that no worker takes. */
  lemma PlannedRunsDecompress(t: Task, b: Block, dst: Bytes, c: L.Config, lanes: seq<L.Lane>, r: Call)
    requires t.Valid() && Aligned(t.h) && GoodBlock(t, b) && |dst| == t.h.origSize && Finished(c, lanes, b.table, r)
    ensures forall p :: p in Order(c, lanes, b.table, r) ==> p.k < t.h.segments
    ensures PlaceAll(t.decode, b, dst, Order(c, lanes, b.table, r)) == Some(Masked(t.input, t.mask)) <==>
              forall k :: 0 <= k < t.h.segments && !Serves(c, KindOf(b.table[k])) ==>
                Segment(t.h, dst, k) == Segment(t.h, Masked(t.input, t.mask), k)
  {
    SegmentsFit(t.h);
    EachSegmentAfterwards(t, b, dst, c, lanes, r, 0);
    var out := PlaceAll(t.decode, b, dst, Order(c, lanes, b.table, r)).value;
    var want := Masked(t.input, t.mask);
    forall k | 0 <= k < t.h.segments
      ensures Segment(t.h, out, k) == if Serves(c, KindOf(b.table[k])) then Segment(t.h, want, k) else Segment(t.h, dst, k)
    {
      EachSegmentAfterwards(t, b, dst, c, lanes, r, k);
    }
    if forall k :: 0 <= k < t.h.segments && !Serves(c, KindOf(b.table[k])) ==> Segment(t.h, dst, k) == Segment(t.h, want, k) {
      SegmentsDetermine(t.h, out, want);
    }
  }

  // ---- the checks ----

  /** The checks never reject what could be served ... */
  lemma ServedIsChecked(env: L.Env, table: seq<Entry>)
    requires Served(env.Plan(), table)
    ensures Checked(env, table)
  {
    var n := |table|;
    if Of(table, Iaa, n) != [] {
      OfHas(table, Iaa, n, Of(table, Iaa, n)[0]);
    }
    if Of(table, Other, n) != [] {
      OfHas(table, Other, n, Of(table, Other, n)[0]);
    }
  }

  /** ... and let through only what is served exactly if no enabled group of backends is without a worker. */
  lemma ChecksSufficeExactlyWhen(env: L.Env)
    ensures (forall table :: Checked(env, table) ==> Served(env.Plan(), table)) <==>
              && (env.iaaOn ==> env.iaaNum > 0)
              && (env.qatOn || env.cpuOn ==> (env.qatOn && env.qatNum > 0) || (env.cpuOn && env.cpuNum > 0))
  {
    var iaa, other := [Entry(0, 1, false, true)], [Entry(0, 1, false, false)];
    assert Of(iaa, Other, 1) == Of(iaa, Other, 0) && Of(other, Iaa, 1) == Of(other, Iaa, 0);
    assert KindOf(iaa[0]) == Iaa && KindOf(other[0]) == Other;
    assert env.iaaOn ==> Checked(env, iaa);
    assert env.qatOn || env.cpuOn ==> Checked(env, other);
    forall table: seq<Entry>, k: nat | Checked(env, table) && k < |table|
      ensures KindOf(table[k]) == Iaa ==> env.iaaOn
      ensures KindOf(table[k]) == Other ==> env.qatOn || env.cpuOn
    {
      OfHas(table, KindOf(table[k]), |table|, k);
    }
  }

  /** IAA enabled with IAXL_IAA_INSTANCE_NUM=0, beside one CPU worker: every block with an IAA segment passes the checks,
      and every call returns without having placed that segment. */
  lemma ZeroInstancesSkip(table: seq<Entry>, k: nat, lanes: seq<L.Lane>, r: Call)
    requires k < |table| && KindOf(table[k]) == Iaa
    requires Finished(L.Env(false, true, true, 0, 0, 1, 1, 1, 1, 1).Plan(), lanes, table, r)
    ensures Checked(L.Env(false, true, true, 0, 0, 1, 1, 1, 1, 1), table)
    ensures !Covered(Order(L.Env(false, true, true, 0, 0, 1, 1, 1, 1, 1).Plan(), lanes, table, r), k)
  {
    PlacedExactlyWhen(L.Env(false, true, true, 0, 0, 1, 1, 1, 1, 1).Plan(), lanes, table, r, k);
  }

  // ---- compression ----

  ghost predicate Completed(s: P.State, x: nat) { exists j :: j in s.completed && j.item == x }

  /** The plan has a lane exactly if there is a worker. */
  lemma AnyLane(c: L.Config, lanes: seq<L.Lane>)
    requires c.Valid() && L.EachSlotOnce(c, lanes)
    ensures |lanes| > 0 <==> c.Workers() > 0
  {
    HasLane(c, lanes, QAT);
    HasLane(c, lanes, IAA);
    HasLane(c, lanes, CPU);
    if |lanes| > 0 { HasLane(c, lanes, lanes[0].backend); }
  }

  lemma SharedCursor(lanes: nat, n: nat, ss: seq<P.State>, es: seq<P.Event>, x: nat)
    requires P.Run(P.OneCursor(lanes, n), ss, es) && P.AllRetired(ss[|es|]) && x < n
    ensures Completed(ss[|es|], x) <==> lanes > 0
  {
    var g, s := P.OneCursor(lanes, n), ss[|es|];
    P.RunsAreSafe(g, ss, es, |es|);
    if lanes > 0 {
      P.EveryItemOnce(g, ss, es, 0, x);
      var l: nat :| l < |s.lanes| && P.Job(x, l) in s.completed;
    } else {
      P.NoLaneNoItem(g, ss, es, |es|, 0, x);
    }
  }

  /** Compression shares one cursor: a finished pipeline over n segments completed them all exactly if there was a worker
      or nothing to do. */
  lemma CompressesAllExactlyWhen(c: L.Config, lanes: seq<L.Lane>, n: nat, ss: seq<P.State>, es: seq<P.Event>)
    requires c.Valid() && L.EachSlotOnce(c, lanes)
    requires P.Run(P.OneCursor(|lanes|, n), ss, es) && P.AllRetired(ss[|es|])
    ensures (forall x: nat :: x < n ==> Completed(ss[|es|], x)) <==> n == 0 || c.Workers() > 0
  {
    AnyLane(c, lanes);
    if n > 0 { SharedCursor(|lanes|, n, ss, es, 0); }
    forall x: nat | x < n ensures Completed(ss[|es|], x) <==> |lanes| > 0 { SharedCursor(|lanes|, n, ss, es, x); }
  }

  // ---- every segment once ----

  ghost predicate Unique(order: seq<Place>) { forall i, j :: 0 <= i < j < |order| ==> order[i].k != order[j].k }

  lemma SegsUnique(table: seq<Entry>, i: nat, j: nat)
    requires i < j < |Segs(table)|
    ensures Segs(table)[i] != Segs(table)[j]
  {
    SegsAre(table, i);
    SegsAre(table, j);
    OfRises(table, Iaa, |table|);
    OfRises(table, Other, |table|);
  }

  lemma PlacesUnique(table: seq<Entry>, lanes: seq<L.Lane>, jobs: seq<P.Job>)
    requires InRange(jobs, |Segs(table)|, |lanes|) && P.ItemsOnce(jobs)
    ensures Unique(Places(Segs(table), lanes, jobs))
  {
    var order := Places(Segs(table), lanes, jobs);
    forall i, j | 0 <= i < j < |order| ensures order[i].k != order[j].k {
      assert jobs[i] in jobs && jobs[j] in jobs && jobs[i].item != jobs[j].item;
      if jobs[i].item < jobs[j].item {
        SegsUnique(table, jobs[i].item, jobs[j].item);
      } else {
        SegsUnique(table, jobs[j].item, jobs[i].item);
      }
    }
  }

  lemma CopiesUnique(table: seq<Entry>, jobs: seq<P.Job>, threads: nat)
    requires InRange(jobs, |Of(table, Stored, |table|)|, threads) && P.ItemsOnce(jobs)
    ensures Unique(Copies(Of(table, Stored, |table|), jobs, threads))
  {
    var stored := Of(table, Stored, |table|);
    var order := Copies(stored, jobs, threads);
    OfRises(table, Stored, |table|);
    forall i, j | 0 <= i < j < |order| ensures order[i].k != order[j].k {
      assert jobs[i] in jobs && jobs[j] in jobs && jobs[i].item != jobs[j].item;
    }
  }

  /** No segment is placed twice. */
  lemma EverySegmentOnce(c: L.Config, lanes: seq<L.Lane>, table: seq<Entry>, r: Call)
    requires Finished(c, lanes, table, r)
    ensures Unique(Order(c, lanes, table, r))
  {
    RunsInRange(c, lanes, table, r);
    P.RunsAreSafe(P.OneCursor(Copiers(c, table), |Of(table, Stored, |table|)|), r.ss, r.es, |r.es|);
    P.RunsAreSafe(P.TwoCursors(IaaLanes(lanes), IaaEnd(table), |Segs(table)|), r.tt, r.fs, |r.fs|);
    var x, y := Copied(c, lanes, table, r), Decoded(c, lanes, table, r);
    CopiesUnique(table, r.ss[|r.es|].completed, Copiers(c, table));
    PlacesUnique(table, lanes, r.tt[|r.fs|].completed);
    forall i, j | 0 <= i < |x| && 0 <= j < |y| ensures x[i].k != y[j].k {
      CopiedRoutes(c, lanes, table, r, x[i]);
      DecodedRoutes(c, lanes, table, r, y[j]);
    }
  }
}
