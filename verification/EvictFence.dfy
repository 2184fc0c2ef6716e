/** The scheduler/rank eviction protocol of KVStore: evict_lru decides on a batch of keys under _evict_cond, every rank
    then drops it without any lock on the scheduler, has() waits while a key it asks for is being dropped, and
    set_auto_evict switches decisions off. Any threads call any of these; each event is one section under the lock, and
    ranks put data at any moment. */
module EvictFence {
  type Key = string

  datatype Caller = Waiting | Returned

  /** batches[b] are the keys of the b-th decision and dropped[b] the ranks that have dropped them; `open` are the
      decisions whose evict_lru call has not cleared _evicting yet; data[r] are the keys rank r holds. */
  datatype State = State(
    ranks: set<nat>, enabled: bool, evicting: set<Key>, batches: seq<set<Key>>, dropped: seq<set<nat>>, open: set<nat>,
    data: map<nat, set<Key>>, callers: map<nat, Caller>)

  datatype Event =
    | Decide(keys: set<Key>)
    | Drop(batch: nat, rank: nat)
    | Clear(batch: nat)
    | Has(keys: set<Key>)
    | Put(rank: nat, key: Key)
    | Switch(caller: nat, on: bool)
    | SwitchReturn(caller: nat)

  ghost predicate Init(s: State) {
    && s.evicting == {} && s.batches == [] && s.dropped == [] && s.open == {} && s.callers == map[]
    && s.data.Keys == s.ranks && (forall r :: r in s.data ==> s.data[r] == {})
  }

  predicate Enabled(s: State, e: Event) {
    match e
    // an empty decision ends the loop without touching _evicting
    case Decide(keys) => s.evicting == {} && s.enabled && keys != {}
    case Drop(b, r) => b in s.open && b < |s.batches| == |s.dropped| && r !in s.dropped[b] && r in s.data
    // the broadcast returned from every rank; an error aborts the process
    case Clear(b) => b in s.open && b < |s.dropped| && s.ranks <= s.dropped[b]
    case Has(keys) => s.evicting !! keys
    case Put(r, key) => r in s.data
    case Switch(c, _) => c !in s.callers || s.callers[c].Returned?
    case SwitchReturn(c) => c in s.callers && s.callers[c].Waiting? && s.evicting == {}
  }

  function After(s: State, e: Event): State
    requires Enabled(s, e)
  {
    match e
    case Decide(keys) =>
      s.(evicting := s.evicting + keys, batches := s.batches + [keys], dropped := s.dropped + [{}],
         open := s.open + {|s.batches|})
    case Drop(b, r) =>
      s.(dropped := s.dropped[b := s.dropped[b] + {r}], data := s.data[r := s.data[r] - s.batches[b]])
    case Clear(b) => s.(evicting := {}, open := s.open - {b})
    case Has(_) => s
    case Put(r, key) => s.(data := s.data[r := s.data[r] + {key}])
    case Switch(c, on) => s.(enabled := on, callers := s.callers[c := Waiting])
    case SwitchReturn(c) => s.(callers := s.callers[c := Returned])
  }

  ghost predicate Step(s: State, e: Event, s': State) { Enabled(s, e) && s' == After(s, e) }

  ghost predicate Run(ss: seq<State>, es: seq<Event>) {
    && |ss| == |es| + 1
    && Init(ss[0])
    && forall i :: 0 <= i < |es| ==> Step(ss[i], es[i], ss[i + 1])
  }

  /** Batch b has been dropped by every rank. */
  predicate Complete(s: State, b: nat) { b < |s.dropped| && s.ranks <= s.dropped[b] }

  /** At most one decision is open, _evicting is exactly its keys, and all the others are complete. */
  ghost predicate OneInFlight(s: State) {
    && |s.batches| == |s.dropped| && s.data.Keys == s.ranks
    && (forall b :: b in s.open ==> b < |s.batches| && s.batches[b] == s.evicting && s.evicting != {})
    && (forall b, c :: b in s.open && c in s.open ==> b == c)
    && (s.open == {} ==> s.evicting == {})
    && (forall b: nat :: b < |s.batches| ==> b in s.open || Complete(s, b))
  }

  lemma FlightKept(s: State, e: Event)
    requires OneInFlight(s) && Enabled(s, e)
    ensures OneInFlight(After(s, e))
  {
    var s' := After(s, e);
    if e.Decide? {
      DecideKeeps(s, e.keys);
    } else {
      forall c: nat | c < |s'.batches| ensures c in s'.open || Complete(s', c) { assert c in s.open || Complete(s, c); }
    }
  }

  lemma DecideKeeps(s: State, keys: set<Key>)
    requires OneInFlight(s) && Enabled(s, Decide(keys))
    ensures OneInFlight(After(s, Decide(keys)))
  {
    var s' := After(s, Decide(keys));
    NothingOpen(s);
    assert s'.evicting == keys;
    forall c: nat | c < |s'.batches| ensures c in s'.open || Complete(s', c) {
      if c < |s.batches| { assert Complete(s, c); }
    }
  }

  lemma NothingOpen(s: State)
    requires OneInFlight(s) && s.evicting == {}
    ensures s.open == {}
  {
    assert forall b :: b in s.open ==> s.evicting != {};
  }

  lemma {:induction false} RunsAreSafe(ss: seq<State>, es: seq<Event>, i: nat)
    requires Run(ss, es) && i < |ss|
    ensures OneInFlight(ss[i]) && ss[i].ranks == ss[0].ranks
  {
    if i > 0 {
      RunsAreSafe(ss, es, i - 1);
      assert Step(ss[i - 1], es[i - 1], ss[i]);
      FlightKept(ss[i - 1], es[i - 1]);
    }
  }

  // ---- decisions and drops over a run ----

  /** The decision of step d keeps its number and its keys. */
  lemma {:induction false} DecisionStays(ss: seq<State>, es: seq<Event>, d: nat, i: nat)
    requires Run(ss, es) && d < i < |ss| && es[d].Decide?
    ensures |ss[d].batches| < |ss[i].batches| && ss[i].batches[|ss[d].batches|] == es[d].keys
    decreases i
  {
    assert Step(ss[i - 1], es[i - 1], ss[i]);
    if d < i - 1 { DecisionStays(ss, es, d, i - 1); }
  }

  /** A rank is marked as done with a batch exactly by its drop. */
  lemma {:induction false} DroppedByDrop(ss: seq<State>, es: seq<Event>, i: nat, b: nat, r: nat) returns (x: nat)
    requires Run(ss, es) && i < |ss| && b < |ss[i].dropped| && r in ss[i].dropped[b]
    ensures x < i && es[x] == Drop(b, r)
  {
    var s := ss[i - 1];
    assert Step(s, es[i - 1], ss[i]);
    if es[i - 1] == Drop(b, r) {
      x := i - 1;
    } else {
      x := DroppedByDrop(ss, es, i - 1, b, r);
    }
  }

  lemma {:induction false} DroppedStays(ss: seq<State>, es: seq<Event>, x: nat, i: nat)
    requires Run(ss, es) && x < i < |ss| && es[x].Drop?
    ensures es[x].batch < |ss[i].dropped| && es[x].rank in ss[i].dropped[es[x].batch]
    decreases i
  {
    assert Step(ss[i - 1], es[i - 1], ss[i]);
    if x < i - 1 { DroppedStays(ss, es, x, i - 1); }
  }

  /** No rank drops a batch twice, and none before it is decided. */
  lemma DropsOnce(ss: seq<State>, es: seq<Event>, x: nat, y: nat)
    requires Run(ss, es) && x < |es| && y < |es| && es[x].Drop? && es[y] == es[x]
    ensures x == y
  {
    assert Step(ss[x], es[x], ss[x + 1]) && Step(ss[y], es[y], ss[y + 1]);
    if x < y { DroppedStays(ss, es, x, y); }
    if y < x { DroppedStays(ss, es, y, x); }
  }

  lemma {:induction false} DecidedBefore(ss: seq<State>, es: seq<Event>, d: nat, x: nat)
    requires Run(ss, es) && d < |es| && x < |es| && es[d].Decide? && es[x].Drop? && es[x].batch == |ss[d].batches|
    ensures d < x
  {
    assert Step(ss[x], es[x], ss[x + 1]);
    assert Step(ss[d], es[d], ss[d + 1]);
    if x < d { BatchesGrow(ss, es, x, d); }
  }

  lemma {:induction false} BatchesGrow(ss: seq<State>, es: seq<Event>, x: nat, i: nat)
    requires Run(ss, es) && x <= i < |ss|
    ensures |ss[x].batches| <= |ss[i].batches|
    decreases i
  {
    if x < i {
      BatchesGrow(ss, es, x, i - 1);
      assert Step(ss[i - 1], es[i - 1], ss[i]);
    }
  }

  // ---- what ranks hold ----

  /** Rank r puts k in one of the steps a .. c. */
  ghost predicate PutBetween(es: seq<Event>, a: nat, c: nat, r: nat, k: Key) {
    exists p :: a <= p < c && p < |es| && es[p] == Put(r, k)
  }

  /** In this step rank r drops a batch with k. */
  predicate Takes(s: State, e: Event, r: nat, k: Key) {
    e.Drop? && e.rank == r && e.batch < |s.batches| && k in s.batches[e.batch]
  }

  ghost predicate TakenBetween(ss: seq<State>, es: seq<Event>, a: nat, c: nat, r: nat, k: Key)
    requires |ss| == |es| + 1
  {
    exists x :: a <= x < c && x < |es| && Takes(ss[x], es[x], r, k)
  }

  /** What one step does to one key of one rank: only a put brings it, only a drop of a batch with it takes it. */
  lemma OneKey(s: State, e: Event, r: nat, k: Key)
    requires OneInFlight(s) && Enabled(s, e) && r in s.ranks
    ensures var s' := After(s, e);
            && r in s.data && r in s'.data
            && (k in s'.data[r] <==> e == Put(r, k) || (k in s.data[r] && !Takes(s, e, r, k)))
  {
  }

  /** Put p of k on rank r has survived up to step i. */
  ghost predicate Survives(ss: seq<State>, es: seq<Event>, p: nat, i: nat, r: nat, k: Key)
    requires |ss| == |es| + 1
  {
    p < i && p < |es| && es[p] == Put(r, k) && !TakenBetween(ss, es, p + 1, i, r, k)
  }

  lemma SurvivesStep(ss: seq<State>, es: seq<Event>, p: nat, i: nat, r: nat, k: Key)
    requires |ss| == |es| + 1 && i < |es| && p < i
    ensures Survives(ss, es, p, i + 1, r, k) <==> Survives(ss, es, p, i, r, k) && !Takes(ss[i], es[i], r, k)
  {
  }

  lemma JustPut(ss: seq<State>, es: seq<Event>, i: nat, r: nat, k: Key)
    requires |ss| == |es| + 1 && i < |es|
    ensures Survives(ss, es, i, i + 1, r, k) <==> es[i] == Put(r, k)
  {
  }

  ghost predicate SomePut(ss: seq<State>, es: seq<Event>, i: nat, r: nat, k: Key)
    requires |ss| == |es| + 1
  {
    exists p: nat :: Survives(ss, es, p, i, r, k)
  }

  lemma SomePutStep(ss: seq<State>, es: seq<Event>, i: nat, r: nat, k: Key)
    requires |ss| == |es| + 1 && i < |es|
    ensures SomePut(ss, es, i + 1, r, k) <==> es[i] == Put(r, k) || (SomePut(ss, es, i, r, k) && !Takes(ss[i], es[i], r, k))
  {
    if SomePut(ss, es, i + 1, r, k) {
      var p: nat :| Survives(ss, es, p, i + 1, r, k);
      if p < i { SurvivesStep(ss, es, p, i, r, k); }
    }
    if SomePut(ss, es, i, r, k) {
      var p: nat :| Survives(ss, es, p, i, r, k);
      SurvivesStep(ss, es, p, i, r, k);
    }
    JustPut(ss, es, i, r, k);
  }

  /** Rank r holds k exactly if some put of it has survived every drop since. */
  lemma {:induction false} HeldExactlyWhenPut(ss: seq<State>, es: seq<Event>, i: nat, r: nat, k: Key)
    requires Run(ss, es) && i < |ss| && r in ss[0].ranks
    ensures r in ss[i].data && (k in ss[i].data[r] <==> SomePut(ss, es, i, r, k))
  {
    RunsAreSafe(ss, es, i);
    if i > 0 {
      HeldExactlyWhenPut(ss, es, i - 1, r, k);
      RunsAreSafe(ss, es, i - 1);
      assert Step(ss[i - 1], es[i - 1], ss[i]);
      OneKey(ss[i - 1], es[i - 1], r, k);
      SomePutStep(ss, es, i - 1, r, k);
    }
  }

  // ---- the fence ----

  lemma HasSettles(s: State, keys: set<Key>, b: nat)
    requires OneInFlight(s) && Enabled(s, Has(keys)) && b < |s.batches|
    ensures Complete(s, b) || s.batches[b] !! keys
  {
    if b !in s.open { assert Complete(s, b); }
  }

  /** Main result: when has() answers for k, every rank has carried out every earlier decision about k, in a step after the
      decision, and holds k now only if it was put again since. */
  lemma HasIsFenced(ss: seq<State>, es: seq<Event>, d: nat, h: nat, k: Key, r: nat) returns (x: nat)
    requires Run(ss, es) && d < h < |es| && es[d].Decide? && k in es[d].keys && es[h].Has? && k in es[h].keys
    requires r in ss[0].ranks
    ensures d < x < h && es[x] == Drop(|ss[d].batches|, r)
    ensures r in ss[h].data && (k in ss[h].data[r] ==> PutBetween(es, x + 1, h, r, k))
  {
    var b := |ss[d].batches|;
    RunsAreSafe(ss, es, h);
    assert Step(ss[h], es[h], ss[h + 1]);
    DecisionStays(ss, es, d, h);
    HasSettles(ss[h], es[h].keys, b);
    assert k in ss[h].batches[b] * es[h].keys;
    x := DroppedByDrop(ss, es, h, b, r);
    DecidedBefore(ss, es, d, x);
    DecisionStays(ss, es, d, x);
    HeldExactlyWhenPut(ss, es, h, r, k);
    if k in ss[h].data[r] {
      var p: nat :| Survives(ss, es, p, h, r, k);
      assert Takes(ss[x], es[x], r, k);
      assert p > x;
    }
  }

  /** So no drop hits data that was put on the strength of an answer given after the decision: every drop of that decision
      came before the answer. */
  lemma NoDropHitsLaterData(ss: seq<State>, es: seq<Event>, d: nat, h: nat, x: nat, k: Key)
    requires Run(ss, es) && d < h < |es| && es[d].Decide? && k in es[d].keys && es[h].Has? && k in es[h].keys
    requires x < |es| && es[x].Drop? && es[x].batch == |ss[d].batches|
    ensures x < h
  {
    RunsAreSafe(ss, es, x);
    assert Step(ss[x], es[x], ss[x + 1]);
    var y := HasIsFenced(ss, es, d, h, k, es[x].rank);
    DropsOnce(ss, es, x, y);
  }

  /** What a rank put after an answer stays until a decision made after that answer. */
  lemma LaterDataStays(ss: seq<State>, es: seq<Event>, h: nat, p: nat, i: nat, k: Key, r: nat)
    requires Run(ss, es) && h < p < i < |ss| && es[h].Has? && k in es[h].keys && es[p] == Put(r, k) && r in ss[0].ranks
    requires forall d :: h < d < i && es[d].Decide? ==> k !in es[d].keys
    ensures r in ss[i].data && k in ss[i].data[r]
  {
    HeldExactlyWhenPut(ss, es, i, r, k);
    forall x | p + 1 <= x < i ensures !Takes(ss[x], es[x], r, k) {
      if Takes(ss[x], es[x], r, k) {
        var d := DecidedBy(ss, es, x, es[x].batch);
        if d < h { NoDropHitsLaterData(ss, es, d, h, x, k); }
      }
    }
    assert Survives(ss, es, p, i, r, k);
  }

  /** Every batch comes from a decision. */
  lemma {:induction false} DecidedBy(ss: seq<State>, es: seq<Event>, i: nat, b: nat) returns (d: nat)
    requires Run(ss, es) && i < |ss| && b < |ss[i].batches|
    ensures d < i && es[d].Decide? && |ss[d].batches| == b && es[d].keys == ss[i].batches[b]
  {
    var s := ss[i - 1];
    assert Step(s, es[i - 1], ss[i]);
    if b < |s.batches| {
      d := DecidedBy(ss, es, i - 1, b);
    } else {
      d := i - 1;
    }
  }

  // ---- the switch ----

  /** Nobody switches eviction on in steps a .. c. */
  ghost predicate StaysOff(es: seq<Event>, a: nat, c: nat) {
    forall j :: a <= j < c && j < |es| ==> !(es[j].Switch? && es[j].on)
  }

  lemma {:induction false} OffMeansNoDecision(ss: seq<State>, es: seq<Event>, a: nat, c: nat)
    requires Run(ss, es) && a < c <= |es| && es[a].Switch? && !es[a].on && StaysOff(es, a, c)
    ensures !ss[c].enabled && ss[c].batches == ss[a].batches
  {
    if c == a + 1 {
      assert Step(ss[a], es[a], ss[c]);
    } else {
      OffMeansNoDecision(ss, es, a, c - 1);
      assert Step(ss[c - 1], es[c - 1], ss[c]);
    }
  }

  /** Once the call that switched eviction off has returned, nothing is in flight and, until somebody switches it on
      again, nothing is decided and no rank loses anything. */
  lemma {:induction false} OffMeansQuiet(ss: seq<State>, es: seq<Event>, a: nat, b: nat, c: nat)
    requires Run(ss, es) && a < b < c <= |es| && StaysOff(es, a, c)
    requires es[a].Switch? && !es[a].on && es[b] == SwitchReturn(es[a].caller)
    ensures ss[c].open == {} && ss[c].evicting == {} && ss[c].batches == ss[b].batches
    ensures forall r :: r in ss[b].data ==> r in ss[c].data && ss[b].data[r] <= ss[c].data[r]
    decreases c
  {
    if c > b + 1 {
      OffMeansQuiet(ss, es, a, b, c - 1);
      OffMeansNoDecision(ss, es, a, c - 1);
      assert Step(ss[c - 1], es[c - 1], ss[c]);
    } else {
      RunsAreSafe(ss, es, b);
      assert Step(ss[b], es[b], ss[c]);
      NothingOpen(ss[b]);
    }
  }

  /** The last switch decides. */
  lemma {:induction false} LastSwitchDecides(ss: seq<State>, es: seq<Event>, a: nat, c: nat)
    requires Run(ss, es) && a < c <= |es| && es[a].Switch? && forall j :: a < j < c ==> !es[j].Switch?
    ensures ss[c].enabled == es[a].on
    decreases c
  {
    assert Step(ss[c - 1], es[c - 1], ss[c]);
    if c > a + 1 { LastSwitchDecides(ss, es, a, c - 1); }
  }

  /** A caller of the switch waits exactly from its switch to its return. */
  lemma {:induction false} CallerWaits(ss: seq<State>, es: seq<Event>, a: nat, i: nat, c: nat)
    requires Run(ss, es) && a < i < |ss| && ((es[a].Switch? && es[a].caller == c) || es[a] == SwitchReturn(c))
    requires forall j :: a < j < i ==> !(es[j].Switch? && es[j].caller == c) && es[j] != SwitchReturn(c)
    ensures c in ss[i].callers && (ss[i].callers[c].Waiting? <==> es[a].Switch?)
    decreases i
  {
    assert Step(ss[i - 1], es[i - 1], ss[i]);
    if a < i - 1 { CallerWaits(ss, es, a, i - 1, c); }
  }

  // ---- nothing waits for ever ----

  /** The decision of step d has been cleared. */
  ghost predicate ClearedBetween(es: seq<Event>, d: nat, i: nat, b: nat) {
    exists c :: d < c < i && c < |es| && es[c] == Clear(b)
  }

  lemma {:induction false} OpenUntilCleared(ss: seq<State>, es: seq<Event>, d: nat, i: nat)
    requires Run(ss, es) && d < i < |ss| && es[d].Decide?
    ensures |ss[d].batches| in ss[i].open <==> !ClearedBetween(es, d, i, |ss[d].batches|)
    decreases i
  {
    var b, e := |ss[d].batches|, es[i - 1];
    assert Step(ss[i - 1], e, ss[i]);
    if d < i - 1 {
      OpenUntilCleared(ss, es, d, i - 1);
      BatchesGrow(ss, es, d + 1, i - 1);
      assert Step(ss[d], es[d], ss[d + 1]);
      if e == Clear(b) { assert ClearedBetween(es, d, i, b); }
    }
  }

  /** has() answers, a switch returns and a decision can be made exactly according to the decisions not cleared yet: has()
      waits for those with a key it asks for, the others for all. */
  lemma WaitsForDecisions(ss: seq<State>, es: seq<Event>, i: nat, keys: set<Key>)
    requires Run(ss, es) && i < |ss|
    ensures Enabled(ss[i], Has(keys)) <==> forall d :: 0 <= d < i && OpenAt(ss, es, d, i) ==> es[d].keys !! keys
    ensures Enabled(ss[i], Decide(keys)) <==>
              ss[i].enabled && keys != {} && forall d :: 0 <= d < i ==> !OpenAt(ss, es, d, i)
    ensures forall c :: Enabled(ss[i], SwitchReturn(c)) <==>
              c in ss[i].callers && ss[i].callers[c].Waiting? && forall d :: 0 <= d < i ==> !OpenAt(ss, es, d, i)
  {
    RunsAreSafe(ss, es, i);
    var s := ss[i];
    forall d | 0 <= d < i && OpenAt(ss, es, d, i) ensures es[d].keys == s.evicting != {} {
      OpenUntilCleared(ss, es, d, i);
      DecisionStays(ss, es, d, i);
    }
    if s.evicting != {} {
      var b :| b in s.open;
      var d := DecidedBy(ss, es, i, b);
      OpenUntilCleared(ss, es, d, i);
      assert OpenAt(ss, es, d, i);
    }
  }

  /** Step d made a decision that is not cleared at step i. */
  ghost predicate OpenAt(ss: seq<State>, es: seq<Event>, d: nat, i: nat) {
    d < |es| && d < |ss| && es[d].Decide? && !ClearedBetween(es, d, i, |ss[d].batches|)
  }

  /** And a decision in flight never hangs: some rank can drop it or it can be cleared, after which nothing is in flight. */
  lemma DecisionProceeds(ss: seq<State>, es: seq<Event>, i: nat)
    requires Run(ss, es) && i < |ss| && ss[i].evicting != {}
    ensures exists e: Event :: (e.Drop? || e.Clear?) && Enabled(ss[i], e) && (e.Clear? ==> After(ss[i], e).evicting == {})
  {
    var s := ss[i];
    RunsAreSafe(ss, es, i);
    var b :| b in s.open;
    if s.ranks <= s.dropped[b] {
      assert Enabled(s, Clear(b));
    } else {
      var r :| r in s.ranks && r !in s.dropped[b];
      assert Enabled(s, Drop(b, r));
    }
  }
}
