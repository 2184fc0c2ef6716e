/** zip_pipeline: lanes claim items from atomic cursors, submit them to their backend, complete them and claim the next
    one until their cursor is exhausted. Compression has one cursor for all lanes; decompression has one for the
    IAA-compressed items and one for the others; parallel_for is the case of one cursor. */
module Pipeline {
  /** Lane l takes items from cursor cursorOf[l], which runs over [lo[c], hi[c]). */
  datatype Config = Config(cursorOf: seq<nat>, lo: seq<nat>, hi: seq<nat>) {
    ghost predicate Valid() {
      && |lo| == |hi|
      && (forall l :: 0 <= l < |cursorOf| ==> cursorOf[l] < |lo|)
      && (forall c :: 0 <= c < |lo| ==> lo[c] <= hi[c])
      && (forall c, d :: 0 <= c < d < |lo| ==> hi[c] <= lo[d])
    }

    predicate In(c: nat, x: nat)
      requires c < |lo| == |hi|
    {
      lo[c] <= x < hi[c]
    }
  }

  datatype Lane = Ready | Running(item: nat) | Retired

  /** An item submitted on a lane. */
  datatype Job = Job(item: nat, lane: nat)

  /** The histories record every submit and every complete callback. */
  datatype State = State(next: seq<nat>, lanes: seq<Lane>, submitted: seq<Job>, completed: seq<Job>)

  datatype Event = Claim(lane: nat) | Complete(lane: nat)

  function Init(g: Config): State { State(g.lo, seq(|g.cursorOf|, _ => Ready), [], []) }

  predicate Shape(g: Config, s: State) {
    && |s.next| == |g.lo| == |g.hi|
    && |s.lanes| == |g.cursorOf|
    && forall l :: 0 <= l < |g.cursorOf| ==> g.cursorOf[l] < |g.lo|
  }

  predicate Enabled(g: Config, s: State, e: Event)
    requires Shape(g, s)
  {
    && e.lane < |s.lanes|
    && (e.Claim? ==> s.lanes[e.lane].Ready?)
    && (e.Complete? ==> s.lanes[e.lane].Running?)
  }

  function After(g: Config, s: State, e: Event): (s': State)
    requires Shape(g, s) && Enabled(g, s, e)
    ensures Shape(g, s')
  {
    var l := e.lane;
    match e
    case Claim(_) =>
      var c := g.cursorOf[l];
      var x := s.next[c];                      // fetch_add
      if x < g.hi[c] then
        s.(next := s.next[c := x + 1], lanes := s.lanes[l := Running(x)], submitted := s.submitted + [Job(x, l)])
      else
        s.(next := s.next[c := x + 1], lanes := s.lanes[l := Retired])
    case Complete(_) =>
      s.(lanes := s.lanes[l := Ready], completed := s.completed + [Job(s.lanes[l].item, l)])
  }

  ghost predicate Run(g: Config, ss: seq<State>, es: seq<Event>) {
    && g.Valid()
    && |ss| == |es| + 1
    && ss[0] == Init(g)
    && forall i :: 0 <= i < |es| ==> Step(g, ss[i], es[i], ss[i + 1])
  }

  ghost predicate Step(g: Config, s: State, e: Event, s': State) {
    Shape(g, s) && Enabled(g, s, e) && s' == After(g, s, e)
  }

  ghost predicate ItemsOnce(jobs: seq<Job>) {
    forall i, j :: 0 <= i < j < |jobs| ==> jobs[i].item != jobs[j].item
  }

  /** Job j was claimed from the cursor of its lane. */
  ghost predicate Claimed(g: Config, s: State, j: Job)
    requires Shape(g, s)
  {
    && j.lane < |s.lanes|
    && g.In(g.cursorOf[j.lane], j.item)
    && j.item < s.next[g.cursorOf[j.lane]]
  }

  ghost predicate Inv(g: Config, s: State) {
    && g.Valid() && Shape(g, s)
    && (forall c :: 0 <= c < |g.lo| ==> g.lo[c] <= s.next[c])
    && (forall j :: j in s.submitted ==> Claimed(g, s, j))
    && ItemsOnce(s.submitted)
    && (forall c, x :: 0 <= c < |g.lo| && g.In(c, x) && x < s.next[c] ==> Taken(g, s, c, x))
    && (forall j :: j in s.completed ==> j in s.submitted && s.lanes[j.lane] != Running(j.item))
    && ItemsOnce(s.completed)
    && (forall j :: j in s.submitted ==> j in s.completed || s.lanes[j.lane] == Running(j.item))
    && (forall l :: 0 <= l < |s.lanes| && s.lanes[l].Running? ==> Job(s.lanes[l].item, l) in s.submitted)
    && (forall l :: 0 <= l < |s.lanes| && s.lanes[l].Retired? ==> g.hi[g.cursorOf[l]] <= s.next[g.cursorOf[l]])
  }

  /** Item x was submitted on a lane of cursor c. */
  ghost predicate Taken(g: Config, s: State, c: nat, x: nat)
    requires Shape(g, s)
  {
    exists j :: j in s.submitted && j.item == x && j.lane < |s.lanes| && g.cursorOf[j.lane] == c
  }

  /** Different cursors never hand out the same item. */
  lemma CursorsDisjoint(g: Config, c: nat, d: nat, x: nat)
    requires g.Valid() && c < |g.lo| && d < |g.lo| && g.In(c, x) && g.In(d, x)
    ensures c == d
  {
  }

  lemma AppendItemsOnce(jobs: seq<Job>, j: Job)
    requires ItemsOnce(jobs) && forall i :: 0 <= i < |jobs| ==> jobs[i].item != j.item
    ensures ItemsOnce(jobs + [j])
  {
  }

  /** The item a cursor is about to hand out was never submitted. */
  lemma FreshItem(g: Config, s: State, c: nat, j: Job)
    requires Inv(g, s) && c < |g.lo| && j in s.submitted && s.next[c] < g.hi[c]
    ensures j.item != s.next[c]
  {
    assert Claimed(g, s, j);
    if j.item == s.next[c] {
      CursorsDisjoint(g, c, g.cursorOf[j.lane], j.item);
    }
  }

  lemma RetireKeeps(g: Config, s: State, l: nat)
    requires Inv(g, s) && Enabled(g, s, Claim(l)) && s.next[g.cursorOf[l]] >= g.hi[g.cursorOf[l]]
    ensures Inv(g, After(g, s, Claim(l)))
  {
    var s', c := After(g, s, Claim(l)), g.cursorOf[l];
    forall j | j in s'.submitted ensures Claimed(g, s', j) { assert Claimed(g, s, j); }
    forall d, x | 0 <= d < |g.lo| && g.In(d, x) && x < s'.next[d] ensures Taken(g, s', d, x) {
      assert Taken(g, s, d, x);
    }
  }

  lemma ClaimKeeps(g: Config, s: State, l: nat)
    requires Inv(g, s) && Enabled(g, s, Claim(l)) && s.next[g.cursorOf[l]] < g.hi[g.cursorOf[l]]
    ensures Inv(g, After(g, s, Claim(l)))
  {
    var s', c := After(g, s, Claim(l)), g.cursorOf[l];
    var x0 := s.next[c];
    var job := Job(x0, l);
    forall i | 0 <= i < |s.submitted| ensures s.submitted[i].item != x0 {
      FreshItem(g, s, c, s.submitted[i]);
    }
    AppendItemsOnce(s.submitted, job);
    assert job in s'.submitted;
    forall j | j in s'.submitted ensures Claimed(g, s', j) {
      if j != job { assert Claimed(g, s, j); }
    }
    ClaimTakes(g, s, l);
    ClaimRuns(g, s, l);
  }

  lemma ClaimRuns(g: Config, s: State, l: nat)
    requires Inv(g, s) && Enabled(g, s, Claim(l)) && s.next[g.cursorOf[l]] < g.hi[g.cursorOf[l]]
    ensures var s' := After(g, s, Claim(l));
            && (forall j :: j in s'.submitted ==> j.lane < |s'.lanes|)
            && (forall j :: j in s'.completed ==> j in s'.submitted && s'.lanes[j.lane] != Running(j.item))
            && (forall j :: j in s'.submitted ==> j in s'.completed || s'.lanes[j.lane] == Running(j.item))
            && (forall i :: 0 <= i < |s'.lanes| && s'.lanes[i].Running? ==> Job(s'.lanes[i].item, i) in s'.submitted)
  {
    var s', c := After(g, s, Claim(l)), g.cursorOf[l];
    var job := Job(s.next[c], l);
    forall j | j in s.submitted ensures j.lane < |s.lanes| && j.item != s.next[c] {
      assert Claimed(g, s, j);
      FreshItem(g, s, c, j);
    }
    assert job in s'.submitted;
    forall j | j in s'.completed ensures j in s'.submitted && s'.lanes[j.lane] != Running(j.item) {
      assert j in s.submitted;
    }
    forall j | j in s'.submitted ensures j in s'.completed || s'.lanes[j.lane] == Running(j.item) {
      if j != job { assert j in s.submitted; }
    }
  }

  lemma ClaimTakes(g: Config, s: State, l: nat)
    requires Inv(g, s) && Enabled(g, s, Claim(l)) && s.next[g.cursorOf[l]] < g.hi[g.cursorOf[l]]
    ensures var s' := After(g, s, Claim(l));
            forall d, x :: 0 <= d < |g.lo| && g.In(d, x) && x < s'.next[d] ==> Taken(g, s', d, x)
  {
    var s', c := After(g, s, Claim(l)), g.cursorOf[l];
    var job := Job(s.next[c], l);
    forall d, x | 0 <= d < |g.lo| && g.In(d, x) && x < s'.next[d] ensures Taken(g, s', d, x) {
      if d == c && x == s.next[c] {
        assert job in s'.submitted && job.item == x;
      } else {
        assert Taken(g, s, d, x);
        var j :| j in s.submitted && j.item == x && j.lane < |s.lanes| && g.cursorOf[j.lane] == d;
        assert j in s'.submitted;
      }
    }
  }

  lemma CompleteKeeps(g: Config, s: State, l: nat)
    requires Inv(g, s) && Enabled(g, s, Complete(l))
    ensures Inv(g, After(g, s, Complete(l)))
  {
    var s' := After(g, s, Complete(l));
    var job := Job(s.lanes[l].item, l);
    assert job in s.submitted;
    forall i | 0 <= i < |s.completed| ensures s.completed[i].item != job.item {
      assert s.completed[i] in s.completed;
      SameItem(s.submitted, s.completed[i], job);
    }
    AppendItemsOnce(s.completed, job);
    forall j | j in s'.submitted ensures Claimed(g, s', j) { assert Claimed(g, s, j); }
    forall d, x | 0 <= d < |g.lo| && g.In(d, x) && x < s'.next[d] ensures Taken(g, s', d, x) {
      assert Taken(g, s, d, x);
    }
    CompleteRuns(g, s, l);
  }

  lemma CompleteRuns(g: Config, s: State, l: nat)
    requires Inv(g, s) && Enabled(g, s, Complete(l))
    ensures var s' := After(g, s, Complete(l));
            && (forall j :: j in s'.submitted ==> j.lane < |s'.lanes|)
            && (forall j :: j in s'.completed ==> j in s'.submitted && s'.lanes[j.lane] != Running(j.item))
            && (forall j :: j in s'.submitted ==> j in s'.completed || s'.lanes[j.lane] == Running(j.item))
  {
    var s' := After(g, s, Complete(l));
    var job := Job(s.lanes[l].item, l);
    forall j | j in s.submitted ensures j.lane < |s.lanes| { assert Claimed(g, s, j); }
    forall j | j in s'.completed ensures j in s'.submitted && s'.lanes[j.lane] != Running(j.item) {
      if j != job { assert j in s.completed; }
    }
    forall j | j in s'.submitted ensures j in s'.completed || s'.lanes[j.lane] == Running(j.item) {
      assert job in s'.completed;
      if j in s.completed { assert j in s'.completed; }
    }
  }

  lemma SameItem(jobs: seq<Job>, a: Job, b: Job)
    requires ItemsOnce(jobs) && a in jobs && b in jobs
    ensures a.item == b.item ==> a == b
  {
  }

  lemma {:induction false} RunsAreSafe(g: Config, ss: seq<State>, es: seq<Event>, i: nat)
    requires Run(g, ss, es) && i < |ss|
    ensures Inv(g, ss[i])
  {
    if i > 0 {
      RunsAreSafe(g, ss, es, i - 1);
      var s, e := ss[i - 1], es[i - 1];
      assert Step(g, s, e, ss[i]);
      match e
      case Claim(l) =>
        if s.next[g.cursorOf[l]] < g.hi[g.cursorOf[l]] { ClaimKeeps(g, s, l); } else { RetireKeeps(g, s, l); }
      case Complete(l) => CompleteKeeps(g, s, l);
    }
  }

  predicate AllRetired(s: State) { forall l :: 0 <= l < |s.lanes| ==> s.lanes[l].Retired? }

  /** Item x went through exactly one submit and one complete, on the same lane of cursor c. */
  ghost predicate DoneOnce(g: Config, s: State, c: nat, x: nat)
    requires Shape(g, s)
  {
    exists l: nat ::
      && l < |s.lanes| && g.cursorOf[l] == c
      && Job(x, l) in s.submitted && Job(x, l) in s.completed
      && (forall j :: j in s.submitted && j.item == x ==> j == Job(x, l))
      && (forall j :: j in s.completed && j.item == x ==> j == Job(x, l))
  }

  /** Once all lanes have retired, every item of every cursor that has a lane was processed exactly once, on a lane
      of that cursor; histories never repeat an item. */
  lemma EveryItemOnce(g: Config, ss: seq<State>, es: seq<Event>, lane: nat, x: nat)
    requires Run(g, ss, es) && AllRetired(ss[|es|]) && lane < |g.cursorOf|
    requires |g.lo| == |g.hi| && g.cursorOf[lane] < |g.lo| && g.In(g.cursorOf[lane], x)
    ensures Shape(g, ss[|es|]) && DoneOnce(g, ss[|es|], g.cursorOf[lane], x)
    ensures ItemsOnce(ss[|es|].submitted) && ItemsOnce(ss[|es|].completed)
  {
    var s, c := ss[|es|], g.cursorOf[lane];
    RunsAreSafe(g, ss, es, |es|);
    assert s.lanes[lane].Retired?;
    assert Taken(g, s, c, x);
    var j :| j in s.submitted && j.item == x && j.lane < |s.lanes| && g.cursorOf[j.lane] == c;
    assert s.lanes[j.lane].Retired?;
    assert j in s.completed && j == Job(x, j.lane);
    forall k | k in s.submitted && k.item == x ensures k == j { SameItem(s.submitted, k, j); }
    forall k | k in s.completed && k.item == x ensures k == j { SameItem(s.submitted, k, j); }
  }

  /** A cursor without lanes is the exact exception: none of its items is ever submitted. */
  lemma NoLaneNoItem(g: Config, ss: seq<State>, es: seq<Event>, i: nat, c: nat, x: nat)
    requires Run(g, ss, es) && i < |ss| && c < |g.lo| == |g.hi| && g.In(c, x)
    requires forall l :: 0 <= l < |g.cursorOf| ==> g.cursorOf[l] != c
    ensures forall j :: j in ss[i].submitted ==> j.item != x
  {
    RunsAreSafe(g, ss, es, i);
    forall j | j in ss[i].submitted ensures j.item != x {
      assert Claimed(g, ss[i], j);
      if j.item == x { CursorsDisjoint(g, c, g.cursorOf[j.lane], x); }
    }
  }

  /** A lane takes the next item of its cursor, in order, and leaves exactly when all of them have been submitted. */
  lemma ClaimsInOrder(g: Config, ss: seq<State>, es: seq<Event>, i: nat, l: nat)
    requires Run(g, ss, es) && i < |es| && es[i] == Claim(l)
    ensures Shape(g, ss[i]) && l < |ss[i].lanes| && l < |ss[i + 1].lanes|
    ensures var c := g.cursorOf[l];
            && (ss[i + 1].lanes[l].Retired? <==> forall x: nat :: g.In(c, x) ==> Taken(g, ss[i], c, x))
            && (!ss[i + 1].lanes[l].Retired? ==>
                  && ss[i + 1].lanes[l].Running? && !Taken(g, ss[i], c, ss[i + 1].lanes[l].item)
                  && forall x: nat :: g.In(c, x) && x < ss[i + 1].lanes[l].item ==> Taken(g, ss[i], c, x))
  {
    var s := ss[i];
    RunsAreSafe(g, ss, es, i);
    assert Step(g, s, es[i], ss[i + 1]);
    var c := g.cursorOf[l];
    if s.next[c] < g.hi[c] { NotTaken(g, s, c); }
  }

  lemma NotTaken(g: Config, s: State, c: nat)
    requires Inv(g, s) && c < |g.lo| && s.next[c] < g.hi[c]
    ensures g.In(c, s.next[c]) && !Taken(g, s, c, s.next[c])
  {
    forall j | j in s.submitted ensures j.item != s.next[c] { FreshItem(g, s, c, j); }
  }

  /** As long as a lane has not left, it has a step to make; after a completion it claims again. */
  lemma LanesGoOn(g: Config, ss: seq<State>, es: seq<Event>, i: nat, l: nat)
    requires Run(g, ss, es) && i < |ss| && l < |g.cursorOf|
    ensures Shape(g, ss[i])
    ensures !ss[i].lanes[l].Retired? ==> Enabled(g, ss[i], Claim(l)) || Enabled(g, ss[i], Complete(l))
    ensures Enabled(g, ss[i], Complete(l)) ==> After(g, ss[i], Complete(l)).lanes[l].Ready?
  {
    RunsAreSafe(g, ss, es, i);
  }

  // ---- the cursors of kv_zip ----

  /** Compression and parallel_for: `lanes` lanes share the items 0 .. n. */
  function OneCursor(lanes: nat, n: nat): Config { Config(seq(lanes, _ => 0), [0], [n]) }

  /** Decompression: the first iaaEnd items for the IAA lanes, the rest for the others. */
  function TwoCursors(iaaLane: seq<bool>, iaaEnd: nat, n: nat): Config {
    Config(seq(|iaaLane|, l requires 0 <= l < |iaaLane| => if iaaLane[l] then 0 else 1), [0, iaaEnd], [iaaEnd, n])
  }

  /** Decompression hands every IAA item to an IAA lane and every other one to another lane, exactly once, given a
      lane of that kind. */
  lemma ItemsReachTheirBackend(iaaLane: seq<bool>, iaaEnd: nat, n: nat, ss: seq<State>, es: seq<Event>, x: nat)
    requires iaaEnd <= n && x < n
    requires Run(TwoCursors(iaaLane, iaaEnd, n), ss, es) && AllRetired(ss[|es|])
    requires exists l :: 0 <= l < |iaaLane| && iaaLane[l] == (x < iaaEnd)
    ensures exists l: nat :: l < |iaaLane| && iaaLane[l] == (x < iaaEnd) && Job(x, l) in ss[|es|].completed
    ensures forall j, k :: j in ss[|es|].completed && k in ss[|es|].completed && j.item == k.item == x ==> j == k
  {
    var g := TwoCursors(iaaLane, iaaEnd, n);
    var lane :| 0 <= lane < |iaaLane| && iaaLane[lane] == (x < iaaEnd);
    assert g.In(g.cursorOf[lane], x);
    EveryItemOnce(g, ss, es, lane, x);
    var s, c := ss[|es|], g.cursorOf[lane];
    var l: nat :| l < |s.lanes| && g.cursorOf[l] == c && Job(x, l) in s.submitted && Job(x, l) in s.completed;
    assert iaaLane[l] == (x < iaaEnd);
  }
}
