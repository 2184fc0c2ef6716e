/** The worker side of KVShrinkConnector: which of its maps an asynchronous load is in while its layers are being loaded,
    across start_load_kv, wait_for_layer_load and get_finished. The calls come from vLLM one at a time: a forward waits
    for its attention layers in order, and get_finished runs between forwards. Mamba layers lead the layer order and are
    never waited for by a forward. */
module Connector {
  type Req = string
  type Layer = string

  /** A put submitted for a request. */
  datatype Save = Save(req: Req, id: nat)

  /** pending maps a request to its number of early layers, -1 for all; promoted, active and bundles are the key sets of
      _early_promoted_tasks, _active_promoted_tasks and _load_bundle_ids; current are the requests of the synchronous
      batch; `at` is the next layer the forward waits for. The rest records history: every load with its early layers
      (0 for a synchronous one), every layer that was waited for successfully, every save and every save that finished. */
  datatype State = State(
    layers: seq<Layer>, mamba: nat,
    pending: map<Req, int>, promoted: set<Req>, active: set<Req>, bundles: set<Req>, current: set<Req>,
    deferred: set<Req>, puts: map<Req, seq<nat>>, forward: bool, at: nat,
    loads: map<Req, int>, loaded: set<(Req, Layer)>, saves: set<Save>, saved: set<Save>, completed: set<Req>)

  datatype Event =
    | Start(forward: bool, scheduled: set<Req>, sync: set<Req>, async_: map<Req, int>)   // start_load_kv
    | WaitLayer                                        // wait_for_layer_load of the next attention layer
    | SaveLayer(req: Req, id: nat)                     // save_kv_layer and wait_for_save
    | Poll(req: Req)                                   // get_finished finds the polled layers of a pending load complete
    | Defer(reqs: set<Req>)                            // get_finished takes over the finished requests
    | Settle(req: Req, loadsReady: bool, putsReady: nat)

  ghost predicate Init(s: State) {
    && s.mamba < |s.layers| && (forall i, j :: 0 <= i < j < |s.layers| ==> s.layers[i] != s.layers[j])
    && s.pending == map[] && s.promoted == {} && s.active == {} && s.bundles == {} && s.current == {}
    && s.deferred == {} && s.puts == map[] && !s.forward
    && s.loads == map[] && s.loaded == {} && s.saves == {} && s.saved == {} && s.completed == {}
  }

  /** The early-layer counts get_num_new_matched_tokens hands out: all layers, or a window that covers the mamba layers. */
  predicate Window(s: State, n: int) { n == -1 || (n > 0 && n >= s.mamba) }

  /** How many layers a poll of the request looks at. */
  function Early(s: State, n: int): nat { if n == -1 || n > |s.layers| then |s.layers| else if n < 0 then 0 else n }

  predicate InSomeMap(s: State, r: Req) { r in s.pending || r in s.promoted || r in s.active }

  predicate Enabled(s: State, e: Event) {
    match e
    case Start(forward, _, sync, async_) =>
      && !s.forward
      && (sync != {} ==> forward && s.mamba == 0)
      && (forall r :: r in sync ==> r !in s.loads && r !in async_)
      && (forall r :: r in async_ ==> r !in s.loads && Window(s, async_[r]))
    case WaitLayer => s.forward && s.at < |s.layers|
    case SaveLayer(_, _) => true
    case Poll(r) => !s.forward && r in s.pending
    case Defer(_) => !s.forward
    case Settle(r, _, n) => !s.forward && r in s.deferred && (r in s.puts ==> n <= |s.puts[r]|)
  }

  /** start_load_kv raises "Duplicate promoted load tasks". */
  predicate Raises(s: State, e: Event) { e.Start? && e.forward && s.active * s.promoted != {} }

  function LayersOf(s: State, r: Req, n: nat): set<(Req, Layer)>
    requires n <= |s.layers|
  {
    set l | l in s.layers[..n] :: (r, l)
  }

  function Settled(s: State, r: Req): State {
    s.(pending := s.pending - {r}, promoted := s.promoted - {r}, active := s.active - {r}, bundles := s.bundles - {r},
       loaded := s.loaded + LayersOf(s, r, |s.layers|))
  }

  /** The put tasks of r after n more of them were found complete, in order. */
  function PutsSettled(s: State, r: Req, n: nat): State
    requires r in s.puts ==> n <= |s.puts[r]|
  {
    if r !in s.puts then s.(deferred := s.deferred - {r}, completed := s.completed + {r})
    else
      var t := s.(saved := s.saved + set id | id in s.puts[r][..n] :: Save(r, id));
      if n == |s.puts[r]| then t.(puts := s.puts - {r}, deferred := s.deferred - {r}, completed := s.completed + {r})
      else t.(puts := s.puts[r := s.puts[r][n..]])
  }

  function After(s: State, e: Event): State
    requires Enabled(s, e) && !Raises(s, e)
  {
    match e
    case Start(forward, scheduled, sync, async_) =>
      var moved := if forward then s.promoted * scheduled else {};
      s.(current := sync, active := s.active + moved, promoted := s.promoted - moved,
         pending := s.pending + async_,
         bundles := s.bundles - moved + (set r | r in async_ && Early(s, async_[r]) < |s.layers|),
         loads := s.loads + async_ + (map r | r in sync :: 0),
         forward := forward, at := s.mamba)
    case WaitLayer =>
      var t := s.(loaded := s.loaded + set r | r in s.current + s.active :: (r, s.layers[s.at]));
      if s.at + 1 == |s.layers| then t.(current := {}, active := {}, forward := false, at := s.at + 1)
      else t.(at := s.at + 1)
    case SaveLayer(r, id) =>
      s.(puts := s.puts[r := (if r in s.puts then s.puts[r] else []) + [id]], saves := s.saves + {Save(r, id)})
    case Poll(r) =>
      var n := s.pending[r];
      s.(pending := s.pending - {r}, promoted := if n == -1 then s.promoted else s.promoted + {r},
         loaded := s.loaded + LayersOf(s, r, Early(s, n)))
    case Defer(reqs) => s.(deferred := s.deferred + reqs)
    case Settle(r, loadsReady, n) =>
      if !InSomeMap(s, r) then PutsSettled(s, r, n)
      else if !loadsReady then s
      else PutsSettled(Settled(s, r), r, n)
  }

  ghost predicate Step(s: State, e: Event, s': State) { Enabled(s, e) && !Raises(s, e) && s' == After(s, e) }

  ghost predicate Run(ss: seq<State>, es: seq<Event>) {
    && |ss| == |es| + 1
    && Init(ss[0])
    && forall i :: 0 <= i < |es| ==> Step(ss[i], es[i], ss[i + 1])
  }

  // ---- the invariant ----

  /** The first n layers of r's load are there. */
  ghost predicate Upto(s: State, r: Req, n: int) { forall i :: 0 <= i < n && i < |s.layers| ==> (r, s.layers[i]) in s.loaded }

  ghost predicate Full(s: State, r: Req) { Upto(s, r, |s.layers|) }

  /** A load is in at most one map; what must be loaded depends on which. */
  ghost predicate LoadOk(s: State, r: Req)
    requires r in s.loads
  {
    var n := s.loads[r];
    if r in s.pending then s.pending[r] == n && Window(s, n) && r !in s.promoted && r !in s.active && r !in s.current
    else if r in s.promoted then Window(s, n) && Upto(s, r, Early(s, n)) && r !in s.active && r !in s.current
    else if r in s.active then Upto(s, r, s.at) && r !in s.current
    else if r in s.current then Upto(s, r, s.at)
    else Full(s, r)
  }

  ghost predicate Shape(s: State) {
    && s.mamba < |s.layers|
    && (forall r :: InSomeMap(s, r) || r in s.current ==> r in s.loads)
    && (forall r :: r in s.bundles ==> r in s.pending || r in s.promoted)
    && (!s.forward ==> s.active == {} && s.current == {})
    && (s.forward ==> s.mamba <= s.at < |s.layers|)
    // a load that is promoted once all layers are there has no bundle
    && (forall r :: r in s.bundles && r in s.loads ==> s.loads[r] != -1)
  }

  ghost predicate SavesOk(s: State) {
    forall x :: x in s.saves ==> x in s.saved || (x.req in s.puts && x.id in s.puts[x.req])
  }

  ghost predicate Inv(s: State) { Shape(s) && SavesOk(s) && forall r :: r in s.loads ==> LoadOk(s, r) }

  // ---- steps ----

  lemma StartKeeps(s: State, e: Event)
    requires Inv(s) && e.Start? && Enabled(s, e) && !Raises(s, e)
    ensures Inv(After(s, e))
  {
    StartShape(s, e);
    forall r | r in After(s, e).loads ensures LoadOk(After(s, e), r) { StartLoads(s, e, r); }
  }

  lemma StartShape(s: State, e: Event)
    requires Inv(s) && e.Start? && Enabled(s, e) && !Raises(s, e)
    ensures Shape(After(s, e))
  {
  }

  lemma StartLoads(s: State, e: Event, r: Req)
    requires Inv(s) && e.Start? && Enabled(s, e) && !Raises(s, e) && r in After(s, e).loads
    ensures LoadOk(After(s, e), r)
  {
    if r in s.loads { assert LoadOk(s, r); }
  }

  lemma WaitKeeps(s: State)
    requires Inv(s) && Enabled(s, WaitLayer)
    ensures Inv(After(s, WaitLayer))
  {
    var s' := After(s, WaitLayer);
    forall r | r in s'.loads ensures LoadOk(s', r) {
      assert LoadOk(s, r);
    }
  }

  lemma LayersOfHas(s: State, r: Req, n: nat, q: Req, l: Layer)
    requires n <= |s.layers|
    ensures (q, l) in LayersOf(s, r, n) <==> q == r && l in s.layers[..n]
  {
  }

  /** Adding the first n layers of r to the loaded ones. */
  lemma MoreLoaded(s: State, s': State, r: Req, n: nat)
    requires n <= |s.layers| && s'.layers == s.layers && s'.loaded == s.loaded + LayersOf(s, r, n)
    ensures Upto(s', r, n)
    ensures forall q, k :: Upto(s, q, k) ==> Upto(s', q, k)
  {
    forall i | 0 <= i < n ensures (r, s.layers[i]) in s'.loaded {
      assert s.layers[..n][i] == s.layers[i];
      LayersOfHas(s, r, n, r, s.layers[i]);
    }
  }

  lemma PollKeeps(s: State, r: Req)
    requires Inv(s) && Enabled(s, Poll(r))
    ensures Inv(After(s, Poll(r)))
  {
    var s' := After(s, Poll(r));
    assert LoadOk(s, r);
    MoreLoaded(s, s', r, Early(s, s.pending[r]));
    forall q | q in s'.loads ensures LoadOk(s', q) { assert LoadOk(s, q); }
  }

  lemma SettledKeeps(s: State, r: Req)
    requires Inv(s) && !s.forward
    ensures Inv(Settled(s, r)) && (r in s.loads ==> Full(Settled(s, r), r)) && !InSomeMap(Settled(s, r), r)
  {
    var s' := Settled(s, r);
    MoreLoaded(s, s', r, |s.layers|);
    forall q | q in s'.loads ensures LoadOk(s', q) { assert LoadOk(s, q); }
  }

  lemma PutsKeep(s: State, r: Req, n: nat)
    requires Inv(s) && (r in s.puts ==> n <= |s.puts[r]|)
    ensures Inv(PutsSettled(s, r, n))
    ensures r in PutsSettled(s, r, n).completed && r !in s.completed ==>
              forall x :: x in s.saves && x.req == r ==> x in PutsSettled(s, r, n).saved
  {
    var s' := PutsSettled(s, r, n);
    forall q | q in s'.loads ensures LoadOk(s', q) { assert LoadOk(s, q); }
    if r in s.puts {
      forall x | x in s.saves ensures x in s'.saved || (x.req in s'.puts && x.id in s'.puts[x.req]) {
        PutsAccount(s, r, n, x);
      }
    }
  }

  lemma PutsAccount(s: State, r: Req, n: nat, x: Save)
    requires SavesOk(s) && x in s.saves && r in s.puts && n <= |s.puts[r]|
    ensures var s' := PutsSettled(s, r, n);
            x in s'.saved || (x.req in s'.puts && x.id in s'.puts[x.req])
    ensures n == |s.puts[r]| && x.req == r ==> x in PutsSettled(s, r, n).saved
  {
    if x !in s.saved && x.req == r {
      assert s.puts[r] == s.puts[r][..n] + s.puts[r][n..];
      assert x == Save(r, x.id);
      if n == |s.puts[r]| { assert s.puts[r][..n] == s.puts[r]; }
    }
  }

  lemma StepKeeps(s: State, e: Event)
    requires Inv(s) && Enabled(s, e)
    ensures !Raises(s, e) && Inv(After(s, e))
  {
    forall r | r in s.promoted ensures r !in s.active { assert r in s.loads && LoadOk(s, r); }
    assert s.active * s.promoted == {};
    match e
    case Start(_, _, _, _) => StartKeeps(s, e);
    case WaitLayer => WaitKeeps(s);
    case SaveLayer(_, _) => SideKeeps(s, e);
    case Poll(r) => PollKeeps(s, r);
    case Defer(_) => SideKeeps(s, e);
    case Settle(r, ready, n) =>
      if !InSomeMap(s, r) {
        PutsKeep(s, r, n);
      } else if ready {
        SettledKeeps(s, r);
        PutsKeep(Settled(s, r), r, n);
      }
  }

  lemma SideKeeps(s: State, e: Event)
    requires Inv(s) && Enabled(s, e) && (e.SaveLayer? || e.Defer?)
    ensures Inv(After(s, e))
  {
    var s' := After(s, e);
    forall q | q in s'.loads ensures LoadOk(s', q) { assert LoadOk(s, q); }
  }

  lemma {:induction false} RunsAreSafe(ss: seq<State>, es: seq<Event>, i: nat)
    requires Run(ss, es) && i < |ss|
    ensures Inv(ss[i])
  {
    if i > 0 {
      RunsAreSafe(ss, es, i - 1);
      assert Step(ss[i - 1], es[i - 1], ss[i]);
      StepKeeps(ss[i - 1], es[i - 1]);
    }
  }

  // ---- results ----

  /** A load with a layer that is not there is in exactly one of the maps (or in the synchronous batch of the forward
      in progress). */
  lemma ExactlyOneMap(ss: seq<State>, es: seq<Event>, i: nat, r: Req)
    requires Run(ss, es) && i < |ss| && r in ss[i].loads && !Full(ss[i], r)
    ensures var s := ss[i];
            (if r in s.pending then 1 else 0) + (if r in s.promoted then 1 else 0) + (if r in s.active then 1 else 0)
            + (if r in s.current then 1 else 0) == 1
  {
    RunsAreSafe(ss, es, i);
    assert LoadOk(ss[i], r);
  }

  /** A bundle id that can still be raised belongs to a pending or promoted load. */
  lemma BundleBelongs(ss: seq<State>, es: seq<Event>, i: nat, r: Req)
    requires Run(ss, es) && i < |ss| && r in ss[i].bundles
    ensures r in ss[i].pending || r in ss[i].promoted
    ensures r !in ss[i].active
  {
    RunsAreSafe(ss, es, i);
    assert r in ss[i].loads && LoadOk(ss[i], r);
  }

  /** start_load_kv never raises its duplicate error. */
  lemma NeverDuplicate(ss: seq<State>, es: seq<Event>, i: nat, e: Event)
    requires Run(ss, es) && i < |ss| && Enabled(ss[i], e)
    ensures !Raises(ss[i], e)
  {
    RunsAreSafe(ss, es, i);
    StepKeeps(ss[i], e);
  }

  /** When a finished request is reported complete, every layer of its load is there and every save has finished. */
  lemma CompleteMeansDone(ss: seq<State>, es: seq<Event>, i: nat, r: Req)
    requires Run(ss, es) && i < |es| && r !in ss[i].completed && r in ss[i + 1].completed
    ensures r in ss[i].loads ==> Full(ss[i + 1], r)
    ensures forall x :: x in ss[i].saves && x.req == r ==> x in ss[i + 1].saved
  {
    var s, e := ss[i], es[i];
    RunsAreSafe(ss, es, i);
    assert Step(s, e, ss[i + 1]);
    if InSomeMap(s, r) {
      SettledKeeps(s, r);
      PutsKeep(Settled(s, r), r, e.putsReady);
    } else {
      if r in s.loads { assert LoadOk(s, r); }
      PutsKeep(s, r, e.putsReady);
    }
  }

  /** And it is reported by the first look of get_finished that finds its loads and saves complete: a request without any
      is reported at once. Other requests are not affected. */
  lemma ReportedExactlyWhen(ss: seq<State>, es: seq<Event>, i: nat, q: Req)
    requires Run(ss, es) && i < |es| && es[i].Settle?
    ensures var s, s', r := ss[i], ss[i + 1], es[i].req;
            var done := (r in s.pending || r in s.promoted || r in s.active ==> es[i].loadsReady) &&
                        (r in s.puts ==> es[i].putsReady == |s.puts[r]|);
            && (q in s'.completed <==> q in s.completed || (q == r && done))
            && (q in s'.deferred <==> q in s.deferred && !(q == r && done))
  {
    assert Step(ss[i], es[i], ss[i + 1]);
  }

  /** At the end of a forward every load it waited for is complete: nothing is dropped when the active map is cleared. */
  lemma ForwardLoadsAll(ss: seq<State>, es: seq<Event>, i: nat, r: Req)
    requires Run(ss, es) && i < |es| && es[i].WaitLayer? && !ss[i + 1].forward && (r in ss[i].active || r in ss[i].current)
    ensures Full(ss[i + 1], r)
  {
    RunsAreSafe(ss, es, i);
    RunsAreSafe(ss, es, i + 1);
    assert Step(ss[i], es[i], ss[i + 1]);
    assert LoadOk(ss[i], r);
    assert LoadOk(ss[i + 1], r);
  }

  // ---- the life of a load ----

  /** This step takes r out of all maps: get_finished found its whole load complete after it was finished. */
  predicate Abandons(s: State, e: Event, r: Req) { e.Settle? && e.req == r && e.loadsReady }

  /** An asynchronous load is pending, with the early layers it was started with, until a poll finds them there. */
  lemma {:induction false} PendingUntilPolled(ss: seq<State>, es: seq<Event>, a: nat, i: nat, r: Req)
    requires Run(ss, es) && a < i < |ss| && es[a].Start? && r in es[a].async_
    requires forall j :: a < j < i ==> es[j] != Poll(r) && !Abandons(ss[j], es[j], r)
    ensures PendingWith(ss[i], r, es[a].async_[r])
    decreases i
  {
    if a < i - 1 { PendingUntilPolled(ss, es, a, i - 1, r); }
    PendingStep(ss, es, i - 1, r, es[a].async_[r]);
  }

  predicate PendingWith(s: State, r: Req, n: int) { r in s.pending && s.pending[r] == n && r in s.loads && s.loads[r] == n }

  lemma PendingStep(ss: seq<State>, es: seq<Event>, i: nat, r: Req, n: int)
    requires Run(ss, es) && i < |es|
    requires (es[i].Start? && r in es[i].async_ && es[i].async_[r] == n) ||
             (PendingWith(ss[i], r, n) && es[i] != Poll(r) && !Abandons(ss[i], es[i], r))
    ensures PendingWith(ss[i + 1], r, n)
  {
    RunsAreSafe(ss, es, i);
    assert Step(ss[i], es[i], ss[i + 1]);
  }

  /** r enters a forward. */
  predicate Schedules(e: Event, r: Req) { e.Start? && e.forward && r in e.scheduled }

  /** The poll makes exactly its early layers count as there; a load polled for all its layers is done with, another one is
      promoted. */
  lemma PolledLoad(ss: seq<State>, es: seq<Event>, p: nat, r: Req, q: Req, l: nat)
    requires Run(ss, es) && p < |es| && es[p] == Poll(r) && l < |ss[p].layers|
    ensures r in ss[p].pending && r !in ss[p + 1].pending
    ensures r in ss[p + 1].promoted <==> ss[p].pending[r] != -1
    ensures var x := (q, ss[p].layers[l]);
            x in ss[p + 1].loaded <==> x in ss[p].loaded || (q == r && (ss[p].pending[r] == -1 || l < ss[p].pending[r]))
  {
    var s, s' := ss[p], ss[p + 1];
    RunsAreSafe(ss, es, p);
    assert Step(s, es[p], s');
    assert r in s.loads && LoadOk(s, r);
    LayersAre(ss, es, p);
    var n := Early(s, s.pending[r]);
    LayersOfHas(s, r, n, q, s.layers[l]);
    if l < n { assert s.layers[..n][l] == s.layers[l]; }
  }

  /** Layer names never change and never repeat. */
  lemma {:induction false} LayersAre(ss: seq<State>, es: seq<Event>, i: nat)
    requires Run(ss, es) && i < |ss|
    ensures ss[i].layers == ss[0].layers && ss[i].mamba == ss[0].mamba
    ensures forall j, k :: 0 <= j < k < |ss[i].layers| ==> ss[i].layers[j] != ss[i].layers[k]
  {
    if i > 0 {
      LayersAre(ss, es, i - 1);
      assert Step(ss[i - 1], es[i - 1], ss[i]);
    }
  }

  /** A promoted load stays promoted until a forward schedules it ... */
  lemma {:induction false} PromotedUntilScheduled(ss: seq<State>, es: seq<Event>, p: nat, i: nat, r: Req)
    requires Run(ss, es) && p < i < |ss| && es[p] == Poll(r) && r in ss[p].pending && ss[p].pending[r] != -1
    requires forall j :: p < j < i ==> !Schedules(es[j], r) && !Abandons(ss[j], es[j], r)
    ensures r in ss[i].promoted && r in ss[i].loads
    decreases i
  {
    if p < i - 1 { PromotedUntilScheduled(ss, es, p, i - 1, r); }
    PromotedStep(ss, es, i - 1, r);
  }

  lemma PromotedStep(ss: seq<State>, es: seq<Event>, i: nat, r: Req)
    requires Run(ss, es) && i < |es|
    requires (es[i] == Poll(r) && r in ss[i].pending && ss[i].pending[r] != -1) ||
             (r in ss[i].promoted && !Schedules(es[i], r) && !Abandons(ss[i], es[i], r))
    ensures r in ss[i + 1].promoted && r in ss[i + 1].loads
  {
    RunsAreSafe(ss, es, i);
    assert Step(ss[i], es[i], ss[i + 1]);
  }

  /** ... and is then active for the whole forward, which waits for every attention layer once, in order. */
  lemma {:induction false} ForwardRuns(ss: seq<State>, es: seq<Event>, a: nat, i: nat, r: Req)
    requires Run(ss, es) && a < i < |ss| && es[a].Start? && es[a].forward
    requires forall j :: a < j < i ==> !es[j].Start?
    ensures InForward(ss, es, a, ss[i], Waits(es, a + 1, i), r)
    decreases i
  {
    if a < i - 1 {
      ForwardRuns(ss, es, a, i - 1, r);
      ForwardStep(ss, es, a, i - 1, Waits(es, a + 1, i - 1), r);
    } else {
      ForwardStarts(ss, es, a, r);
    }
  }

  /** After w waits of the forward that step a started. */
  ghost predicate InForward(ss: seq<State>, es: seq<Event>, a: nat, s: State, w: nat, r: Req)
    requires a < |es| && a < |ss| && es[a].Start?
  {
    && s.layers == ss[a].layers && s.at == ss[a].mamba + w
    && (s.forward <==> s.at < |s.layers|) && s.at <= |s.layers|
    && (s.forward ==> s.current == es[a].sync && (r in s.active <==> r in ss[a].promoted && r in es[a].scheduled))
  }

  lemma ForwardStarts(ss: seq<State>, es: seq<Event>, a: nat, r: Req)
    requires Run(ss, es) && a < |es| && es[a].Start? && es[a].forward
    ensures InForward(ss, es, a, ss[a + 1], 0, r)
  {
    RunsAreSafe(ss, es, a);
    assert Step(ss[a], es[a], ss[a + 1]);
  }

  lemma ForwardStep(ss: seq<State>, es: seq<Event>, a: nat, i: nat, w: nat, r: Req)
    requires Run(ss, es) && a < i < |es| && es[a].Start? && es[a].forward && !es[i].Start? && InForward(ss, es, a, ss[i], w, r)
    ensures InForward(ss, es, a, ss[i + 1], w + if es[i].WaitLayer? then 1 else 0, r)
  {
    RunsAreSafe(ss, es, i);
    assert Step(ss[i], es[i], ss[i + 1]);
  }

  /** The calls of wait_for_layer_load in steps a .. c. */
  ghost function Waits(es: seq<Event>, a: nat, c: nat): nat {
    if c <= a || c > |es| then 0 else Waits(es, a, c - 1) + if es[c - 1].WaitLayer? then 1 else 0
  }

  /** Each of them makes the next layer of every load in the forward count as there, and nothing else. */
  lemma WaitedLayer(ss: seq<State>, es: seq<Event>, i: nat, q: Req, l: Layer)
    requires Run(ss, es) && i < |es| && es[i].WaitLayer?
    ensures ss[i].at < |ss[i].layers|
    ensures (q, l) in ss[i + 1].loaded <==>
              (q, l) in ss[i].loaded || ((q in ss[i].active || q in ss[i].current) && l == ss[i].layers[ss[i].at])
  {
    assert Step(ss[i], es[i], ss[i + 1]);
  }

  /** A bundle exists exactly for a load with layers left behind its early ones that has not entered a forward. */
  lemma {:induction false} BundleUntilForward(ss: seq<State>, es: seq<Event>, a: nat, i: nat, r: Req)
    requires Run(ss, es) && a < i < |ss| && es[a].Start? && r in es[a].async_
    requires forall j :: a < j < i ==> !Schedules(es[j], r) && !Abandons(ss[j], es[j], r)
    ensures r in ss[i].loads && (r in ss[i].bundles <==> 0 <= es[a].async_[r] < |ss[0].layers|)
    decreases i
  {
    if a < i - 1 {
      BundleUntilForward(ss, es, a, i - 1, r);
      BundleStep(ss, es, i - 1, r);
    } else {
      BundleStarts(ss, es, a, r);
    }
  }

  lemma BundleStarts(ss: seq<State>, es: seq<Event>, a: nat, r: Req)
    requires Run(ss, es) && a < |es| && es[a].Start? && r in es[a].async_
    ensures r in ss[a + 1].loads && (r in ss[a + 1].bundles <==> 0 <= es[a].async_[r] < |ss[0].layers|)
  {
    RunsAreSafe(ss, es, a);
    LayersAre(ss, es, a);
    assert Step(ss[a], es[a], ss[a + 1]);
  }

  lemma BundleStep(ss: seq<State>, es: seq<Event>, i: nat, r: Req)
    requires Run(ss, es) && i < |es| && r in ss[i].loads && !Schedules(es[i], r) && !Abandons(ss[i], es[i], r)
    ensures r in ss[i + 1].loads && (r in ss[i + 1].bundles <==> r in ss[i].bundles)
  {
    RunsAreSafe(ss, es, i);
    assert Step(ss[i], es[i], ss[i + 1]);
  }

  /** Once its finished request's load is complete, a load is in no map and has no bundle. */
  lemma AbandonedIsGone(ss: seq<State>, es: seq<Event>, i: nat, r: Req)
    requires Run(ss, es) && i < |es| && Abandons(ss[i], es[i], r)
    ensures r !in ss[i + 1].pending && r !in ss[i + 1].promoted && r !in ss[i + 1].active && r !in ss[i + 1].bundles
  {
    RunsAreSafe(ss, es, i);
    assert Step(ss[i], es[i], ss[i + 1]);
    if r in ss[i].bundles { assert r in ss[i].pending || r in ss[i].promoted; }
  }

  // ---- saves and reports ----

  /** The saves of r in the first i steps, in order, and how many of them get_finished has found complete. */
  ghost function SavesOf(es: seq<Event>, i: nat, r: Req): seq<nat>
    requires i <= |es|
  {
    if i == 0 then []
    else SavesOf(es, i - 1, r) + if es[i - 1].SaveLayer? && es[i - 1].req == r then [es[i - 1].id] else []
  }

  predicate Collects(s: State, e: Event, r: Req) {
    e.Settle? && e.req == r && (r in s.pending || r in s.promoted || r in s.active ==> e.loadsReady) && r in s.puts
  }

  ghost function Collected(ss: seq<State>, es: seq<Event>, i: nat, r: Req): nat
    requires i <= |es| < |ss|
  {
    if i == 0 then 0
    else Collected(ss, es, i - 1, r) + if Collects(ss[i - 1], es[i - 1], r) then es[i - 1].putsReady else 0
  }

  function Remaining(s: State, r: Req): seq<nat> { if r in s.puts then s.puts[r] else [] }

  /** Every save is waited for exactly once and in order: what is left are the saves behind those found complete. */
  lemma {:induction false} SavesInOrder(ss: seq<State>, es: seq<Event>, i: nat, r: Req)
    requires Run(ss, es) && i < |ss|
    ensures Collected(ss, es, i, r) <= |SavesOf(es, i, r)|
    ensures Remaining(ss[i], r) == SavesOf(es, i, r)[Collected(ss, es, i, r)..]
    ensures r in ss[i].puts <==> Remaining(ss[i], r) != []
  {
    if i > 0 {
      SavesInOrder(ss, es, i - 1, r);
      assert Step(ss[i - 1], es[i - 1], ss[i]);
      SavesStep(ss[i - 1], es[i - 1], r);
    }
  }

  lemma SavesStep(s: State, e: Event, r: Req)
    requires Enabled(s, e) && !Raises(s, e)
    ensures Collects(s, e, r) ==> e.putsReady <= |Remaining(s, r)| && Remaining(After(s, e), r) == Remaining(s, r)[e.putsReady..]
    ensures Collects(s, e, r) ==> (r in After(s, e).puts <==> Remaining(After(s, e), r) != [])
    ensures e.SaveLayer? && e.req == r ==> Remaining(After(s, e), r) == Remaining(s, r) + [e.id] && r in After(s, e).puts
    ensures !Collects(s, e, r) && !(e.SaveLayer? && e.req == r) ==>
              Remaining(After(s, e), r) == Remaining(s, r) && (r in After(s, e).puts <==> r in s.puts)
  {
  }

  /** A save counts as finished exactly when get_finished has found it complete. */
  lemma {:induction false} SavedExactlyWhen(ss: seq<State>, es: seq<Event>, i: nat, r: Req, id: nat)
    requires Run(ss, es) && i < |ss|
    ensures PrefixSaved(ss[i], r, id, SavesOf(es, i, r), Collected(ss, es, i, r))
  {
    if i == 0 {
      assert Save(r, id) !in ss[0].saved;
    } else {
      SavedExactlyWhen(ss, es, i - 1, r, id);
      SavedLater(ss, es, i - 1, r, id);
    }
  }

  ghost predicate PrefixSaved(s: State, r: Req, id: nat, a: seq<nat>, c: nat) {
    c <= |a| && (Save(r, id) in s.saved <==> id in a[..c])
  }

  lemma SavedLater(ss: seq<State>, es: seq<Event>, i: nat, r: Req, id: nat)
    requires Run(ss, es) && i < |es| && PrefixSaved(ss[i], r, id, SavesOf(es, i, r), Collected(ss, es, i, r))
    ensures PrefixSaved(ss[i + 1], r, id, SavesOf(es, i + 1, r), Collected(ss, es, i + 1, r))
  {
    SavesInOrder(ss, es, i, r);
    SavesInOrder(ss, es, i + 1, r);
    SavedNext(ss, es, i, r, id, SavesOf(es, i, r), Collected(ss, es, i, r), SavesOf(es, i + 1, r), Collected(ss, es, i + 1, r));
  }

  /** c of the saves `a` of r are finished before a step, c' of the saves a' after it. */
  lemma SavedNext(ss: seq<State>, es: seq<Event>, i: nat, r: Req, id: nat, a: seq<nat>, c: nat, a': seq<nat>, c': nat)
    requires Run(ss, es) && i < |es| && c <= |a| && c' <= |a'| && Remaining(ss[i], r) == a[c..]
    requires Save(r, id) in ss[i].saved <==> id in a[..c]
    requires a' == a + if es[i].SaveLayer? && es[i].req == r then [es[i].id] else []
    requires c' == c + if Collects(ss[i], es[i], r) then es[i].putsReady else 0
    ensures Save(r, id) in ss[i + 1].saved <==> id in a'[..c']
  {
    assert Step(ss[i], es[i], ss[i + 1]);
    SavedStep(ss[i], es[i], r, id);
    if Collects(ss[i], es[i], r) {
      assert a' == a;
      MorePrefix(a, c, es[i].putsReady, id);
    } else {
      assert a'[..c] == a[..c];
    }
  }

  lemma {:induction false} SavesAreRecorded(ss: seq<State>, es: seq<Event>, i: nat, r: Req, id: nat)
    requires Run(ss, es) && i < |ss|
    ensures Save(r, id) in ss[i].saves <==> id in SavesOf(es, i, r)
  {
    if i > 0 {
      SavesAreRecorded(ss, es, i - 1, r, id);
      assert Step(ss[i - 1], es[i - 1], ss[i]);
      SavedStep(ss[i - 1], es[i - 1], r, id);
    }
  }

  lemma MorePrefix(a: seq<nat>, c: nat, n: nat, x: nat)
    requires c + n <= |a|
    ensures x in a[..c + n] <==> x in a[..c] || x in a[c..][..n]
  {
    assert a[..c + n] == a[..c] + a[c..][..n];
  }

  lemma SavedStep(s: State, e: Event, r: Req, id: nat)
    requires Enabled(s, e) && !Raises(s, e)
    ensures Collects(s, e, r) ==> e.putsReady <= |Remaining(s, r)|
    ensures Save(r, id) in After(s, e).saved <==>
              Save(r, id) in s.saved || (Collects(s, e, r) && id in Remaining(s, r)[..e.putsReady])
    ensures Save(r, id) in After(s, e).saves <==> Save(r, id) in s.saves || e == SaveLayer(r, id)
  {
  }

  /** A finished request is deferred until it is reported. */
  lemma {:induction false} DeferredUntilReported(ss: seq<State>, es: seq<Event>, d: nat, i: nat, r: Req)
    requires Run(ss, es) && d < i < |ss| && es[d].Defer? && r in es[d].reqs
    requires forall j :: d < j < i ==> !(es[j].Settle? && es[j].req == r)
    ensures r in ss[i].deferred
    decreases i
  {
    assert Step(ss[i - 1], es[i - 1], ss[i]);
    if d < i - 1 { DeferredUntilReported(ss, es, d, i - 1, r); }
  }
}
