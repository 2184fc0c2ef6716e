/** Every interleaving of one client, its daemon and the messages between them. Calls are synchronous, so at most one
    request or response is under way; done pushes arrive at any time and in any order, also before the response that
    tells the client the job's id. */
module RemoteRuns {
  import opened RemoteJobs

  datatype Phase =
    | Idle
    | Asked(layers: set<Layer>)              // the request is under way
    | Refused                                // an error response is under way
    | Answered(job: Job, layers: set<Layer>) // the response is under way
    | Got(job: Job, layers: set<Layer>)      // received, the job not registered yet

  /** notDone is the daemon's job table; issued records the layers of every job. */
  datatype State = State(client: Client, phase: Phase, notDone: map<Job, set<Layer>>, pushes: set<(Job, Layer)>,
                         lastJob: nat, issued: map<Job, set<Layer>>)

  datatype Event =
    | Call(layers: set<Layer>)
    | Serve
    | Refuse                          // the daemon's handler raised
    | Poll(job: Job, layer: Layer)    // poll_done found the layer complete
    | ReceiveResponse
    | ReceivePush(job: Job, layer: Layer)
    | Register

  function Init(): State { State(Client(map[], map[], {}), Idle, map[], {}, 0, map[]) }

  predicate Enabled(s: State, e: Event) {
    match e
    case Call(layers) => s.phase.Idle? && layers != {}
    case Serve => s.phase.Asked?
    case Refuse => s.phase.Asked?
    case Poll(j, l) => j in s.notDone && l in s.notDone[j]
    case ReceiveResponse => s.phase.Answered? || s.phase.Refused?
    case ReceivePush(j, l) => (j, l) in s.pushes
    case Register => s.phase.Got?
  }

  /** Where the client would fail with a KeyError. */
  predicate Crashes(s: State, e: Event) {
    match e
    case ReceivePush(j, l) => j in s.client.pending && !Known(s.client, j, l)
    case Register => !(s.phase.Got? && Early(s.client, s.phase.job) <= s.phase.layers)
    case _ => false
  }

  function After(s: State, e: Event): State
    requires Enabled(s, e) && !Crashes(s, e)
  {
    match e
    case Call(layers) => s.(phase := Asked(layers))
    case Serve =>
      var j := s.lastJob + 1;
      s.(phase := Answered(j, s.phase.layers), lastJob := j, notDone := s.notDone[j := s.phase.layers],
         issued := s.issued[j := s.phase.layers])
    case Refuse => s.(phase := Refused)
    case Poll(j, l) =>
      var left := s.notDone[j] - {l};
      s.(notDone := if left == {} then s.notDone - {j} else s.notDone[j := left], pushes := s.pushes + {(j, l)})
    case ReceiveResponse => s.(phase := if s.phase.Answered? then Got(s.phase.job, s.phase.layers) else Idle)
    case ReceivePush(j, l) => s.(pushes := s.pushes - {(j, l)}, client := OnDone(s.client, j, l))
    case Register =>
      var j := s.phase.job;
      s.(phase := Idle, client := Registered(s.client, j, s.phase.layers, Early(s.client, j)))
  }

  ghost predicate Step(s: State, e: Event, s': State) { Enabled(s, e) && !Crashes(s, e) && s' == After(s, e) }

  ghost predicate Run(ss: seq<State>, es: seq<Event>) {
    && |ss| == |es| + 1
    && ss[0] == Init()
    && forall i :: 0 <= i < |es| ==> Step(ss[i], es[i], ss[i + 1])
  }

  // ---- where a layer's completion is ----

  function One(b: bool): int { if b then 1 else 0 }

  predicate AtDaemon(s: State, j: Job, l: Layer) { j in s.notDone && l in s.notDone[j] }

  predicate Issued(s: State, j: Job, l: Layer) { j in s.issued && l in s.issued[j] }

  /** In how many of the four places it is: not done, pushed, waiting as an early push, marked. */
  function Places(s: State, j: Job, l: Layer): int {
    One(AtDaemon(s, j, l)) + One((j, l) in s.pushes) + One(l in Early(s.client, j)) + One((j, l) in s.client.done)
  }

  ghost predicate Placed(s: State) { forall j, l :: Places(s, j, l) == One(Issued(s, j, l)) }

  predicate Unregistered(s: State, j: Job) { (s.phase.Answered? || s.phase.Got?) && s.phase.job == j }

  function Undone(s: State, j: Job): set<Layer>
    requires j in s.issued
  {
    set l | l in s.issued[j] && (j, l) !in s.client.done
  }

  ghost predicate JobOk(s: State, j: Job)
    requires j in s.issued
  {
    && s.issued[j] != {} && 0 < j <= s.lastJob
    && if Unregistered(s, j) then j !in s.client.pending && Undone(s, j) == s.issued[j] && s.phase.layers == s.issued[j]
       else
         && j !in s.client.early
         && (j in s.client.pending <==> Undone(s, j) != {})
         && (j in s.client.pending ==> s.client.pending[j] == Entry(s.issued[j], |Undone(s, j)|))
  }

  ghost predicate Inv(s: State) {
    && Placed(s)
    && (forall j :: j in s.issued ==> JobOk(s, j))
    && (forall j :: j in s.client.pending || j in s.client.early || j in s.notDone ==> j in s.issued)
    && (s.phase.Asked? || s.phase.Answered? || s.phase.Got? ==> s.phase.layers != {})
    && (s.phase.Answered? || s.phase.Got? ==> s.phase.job in s.issued)
  }

  lemma PlacedAt(s: State, j: Job, l: Layer)
    requires Placed(s)
    ensures Places(s, j, l) == One(Issued(s, j, l))
  {
  }

  lemma NoFuture(s: State, l: Layer)
    requires Inv(s)
    ensures s.lastJob + 1 !in s.issued && Places(s, s.lastJob + 1, l) == 0
  {
    var j := s.lastJob + 1;
    PlacedAt(s, j, l);
    forall i | i in s.issued ensures i <= s.lastJob { assert JobOk(s, i); }
  }

  lemma ServeKeeps(s: State)
    requires Inv(s) && Enabled(s, Serve)
    ensures Inv(After(s, Serve))
  {
    var s', n := After(s, Serve), s.lastJob + 1;
    forall j, l ensures Places(s', j, l) == One(Issued(s', j, l)) {
      PlacedAt(s, j, l);
      NoFuture(s, l);
    }
    forall j | j in s'.issued ensures JobOk(s', j) {
      if j == n {
        forall l | l in s'.issued[n] ensures (n, l) !in s'.client.done { NoFuture(s, l); }
        NoFuture(s, "");
        assert Undone(s', n) == s'.issued[n];
      } else {
        assert JobOk(s, j) && Undone(s', j) == Undone(s, j);
      }
    }
  }

  lemma PollKeeps(s: State, j: Job, l: Layer)
    requires Inv(s) && Enabled(s, Poll(j, l))
    ensures Inv(After(s, Poll(j, l)))
  {
    var s' := After(s, Poll(j, l));
    forall i, k ensures Places(s', i, k) == One(Issued(s', i, k)) {
      PlacedAt(s, i, k);
      assert AtDaemon(s', i, k) <==> AtDaemon(s, i, k) && (i, k) != (j, l);
    }
    forall i | i in s'.issued ensures JobOk(s', i) {
      assert JobOk(s, i) && Undone(s', i) == Undone(s, i);
    }
  }

  /** A push for a job that is not pending comes before its registration. */
  lemma PushFinds(s: State, j: Job, l: Layer)
    requires Inv(s) && (j, l) in s.pushes
    ensures Issued(s, j, l) && (j, l) !in s.client.done && l !in Early(s.client, j)
    ensures j in s.client.pending ==> Known(s.client, j, l) && !Unregistered(s, j)
    ensures j !in s.client.pending ==> Unregistered(s, j)
  {
    PlacedAt(s, j, l);
    assert JobOk(s, j);
    if !Unregistered(s, j) { assert l in Undone(s, j); }
  }

  lemma EarlyPushKeeps(s: State, j: Job, l: Layer)
    requires Inv(s) && Enabled(s, ReceivePush(j, l)) && j !in s.client.pending
    ensures Inv(After(s, ReceivePush(j, l)))
  {
    PushFinds(s, j, l);
    var s' := After(s, ReceivePush(j, l));
    forall i, k ensures Places(s', i, k) == One(Issued(s', i, k)) {
      PlacedAt(s, i, k);
      assert k in Early(s'.client, i) <==> k in Early(s.client, i) || (i, k) == (j, l);
    }
    forall i | i in s'.issued ensures JobOk(s', i) {
      assert JobOk(s, i) && Undone(s', i) == Undone(s, i);
    }
  }

  lemma MarkPending(s: State, s': State, j: Job, l: Layer)
    requires Inv(s) && Known(s.client, j, l) && j in s.issued && (j, l) !in s.client.done && !Unregistered(s, j)
    requires s'.client == MarkDone(s.client, j, l) && s'.issued == s.issued
    requires l in s.issued[j]
    ensures Undone(s', j) == Undone(s, j) - {l}
    ensures j in s'.client.pending <==> Undone(s', j) != {}
    ensures j in s'.client.pending ==> s'.client.pending[j] == Entry(s.issued[j], |Undone(s', j)|)
  {
    assert JobOk(s, j);
    assert Undone(s', j) == Undone(s, j) - {l};
    assert l in Undone(s, j);
    assert |Undone(s', j)| == |Undone(s, j)| - 1;
    OneLeft(Undone(s, j), l);
  }

  lemma PushKeeps(s: State, j: Job, l: Layer)
    requires Inv(s) && Enabled(s, ReceivePush(j, l)) && j in s.client.pending && !Crashes(s, ReceivePush(j, l))
    ensures Inv(After(s, ReceivePush(j, l)))
  {
    PushFinds(s, j, l);
    var s' := After(s, ReceivePush(j, l));
    forall i, k ensures Places(s', i, k) == One(Issued(s', i, k)) { PlacedAt(s, i, k); }
    MarkPending(s, s', j, l);
    forall i | i in s'.issued ensures JobOk(s', i) {
      assert JobOk(s, i);
      if i != j { assert Undone(s', i) == Undone(s, i); }
    }
  }

  /** Early pushes are for layers of the job, so replaying them finds their tasks. */
  lemma EarlyFits(s: State)
    requires Inv(s) && s.phase.Got?
    ensures !Crashes(s, Register)
    ensures forall l :: (s.phase.job, l) !in s.client.done
  {
    var j := s.phase.job;
    assert JobOk(s, j);
    forall l ensures (l in Early(s.client, j) ==> l in s.phase.layers) && (j, l) !in s.client.done {
      PlacedAt(s, j, l);
      assert l in s.issued[j] ==> l in Undone(s, j);
    }
  }

  lemma RegisterJob(s: State)
    requires Inv(s) && s.phase.Got? && !Crashes(s, Register)
    ensures JobOk(After(s, Register), s.phase.job)
  {
    var s', j := After(s, Register), s.phase.job;
    assert JobOk(s, j);
    RegisterUndone(s);
  }

  lemma RegisterUndone(s: State)
    requires Inv(s) && s.phase.Got? && !Crashes(s, Register)
    ensures s.phase.job in s.issued
    ensures Undone(After(s, Register), s.phase.job) == s.issued[s.phase.job] - Early(s.client, s.phase.job)
  {
    EarlyFits(s);
    var j := s.phase.job;
    assert forall l :: (j, l) in Pairs(j, Early(s.client, j)) <==> l in Early(s.client, j);
    assert forall l :: (j, l) in After(s, Register).client.done <==> l in Early(s.client, j);
  }

  lemma RegisterPlaces(s: State)
    requires Inv(s) && s.phase.Got? && !Crashes(s, Register)
    ensures Placed(After(s, Register))
  {
    var s', j := After(s, Register), s.phase.job;
    EarlyFits(s);
    forall i, k ensures Places(s', i, k) == One(Issued(s', i, k)) {
      PlacedAt(s, i, k);
      assert (i, k) in Pairs(j, Early(s.client, j)) <==> i == j && k in Early(s.client, j);
    }
  }

  lemma RegisterKeeps(s: State)
    requires Inv(s) && s.phase.Got? && !Crashes(s, Register)
    ensures Inv(After(s, Register))
  {
    var s', j := After(s, Register), s.phase.job;
    EarlyFits(s);
    RegisterPlaces(s);
    RegisterJob(s);
    forall i | i in s'.issued ensures JobOk(s', i) {
      if i != j { assert JobOk(s, i) && Undone(s', i) == Undone(s, i); }
    }
  }

  lemma PhaseKeeps(s: State, e: Event)
    requires Inv(s) && Enabled(s, e) && (e.Call? || e.Refuse? || e.ReceiveResponse?)
    ensures Inv(After(s, e))
  {
    var s' := After(s, e);
    forall i, k ensures Places(s', i, k) == One(Issued(s', i, k)) { PlacedAt(s, i, k); }
    forall i | i in s'.issued ensures JobOk(s', i) {
      assert JobOk(s, i) && Undone(s', i) == Undone(s, i);
    }
  }

  lemma StepKeeps(s: State, e: Event)
    requires Inv(s) && Enabled(s, e)
    ensures !Crashes(s, e) && Inv(After(s, e))
  {
    match e
    case Call(_) => PhaseKeeps(s, e);
    case Serve => ServeKeeps(s);
    case Refuse => PhaseKeeps(s, e);
    case Poll(j, l) => PollKeeps(s, j, l);
    case ReceiveResponse => PhaseKeeps(s, e);
    case ReceivePush(j, l) =>
      PushFinds(s, j, l);
      if j in s.client.pending { PushKeeps(s, j, l); } else { EarlyPushKeeps(s, j, l); }
    case Register =>
      EarlyFits(s);
      RegisterKeeps(s);
  }

  lemma {:induction false} RunsAreSafe(ss: seq<State>, es: seq<Event>, i: nat)
    requires Run(ss, es) && i < |ss|
    ensures Inv(ss[i])
  {
    if i > 0 {
      RunsAreSafe(ss, es, i - 1);
      assert Step(ss[i - 1], es[i - 1], ss[i]);
      StepKeeps(ss[i - 1], es[i - 1]);
    }
  }

  // ---- results ----

  /** The counter of a pending job is the number of its tasks that are not done, and never zero. */
  lemma RemainingIsUndone(ss: seq<State>, es: seq<Event>, i: nat, j: Job)
    requires Run(ss, es) && i < |ss| && j in ss[i].client.pending
    ensures j in ss[i].issued && ss[i].client.pending[j].layers == ss[i].issued[j]
    ensures ss[i].client.pending[j].remaining == |Undone(ss[i], j)| > 0
  {
    RunsAreSafe(ss, es, i);
    assert JobOk(ss[i], j);
  }

  /** No step of the client can fail, and a push is never for a layer that is marked already: each layer is marked
      exactly once. */
  lemma EachLayerMarkedOnce(ss: seq<State>, es: seq<Event>, i: nat, e: Event)
    requires Run(ss, es) && i < |ss| && Enabled(ss[i], e)
    ensures !Crashes(ss[i], e)
    ensures e.ReceivePush? ==> (e.job, e.layer) !in ss[i].client.done && e.layer !in Early(ss[i].client, e.job)
    ensures e.Register? ==> forall l :: (ss[i].phase.job, l) !in ss[i].client.done
  {
    RunsAreSafe(ss, es, i);
    StepKeeps(ss[i], e);
    if e.ReceivePush? { PushFinds(ss[i], e.job, e.layer); }
    if e.Register? { EarlyFits(ss[i]); }
  }

  /** Nothing is lost: the completion of every layer of every job is in exactly one place. */
  lemma NoPushIsLost(ss: seq<State>, es: seq<Event>, i: nat, j: Job, l: Layer)
    requires Run(ss, es) && i < |ss|
    ensures Places(ss[i], j, l) == One(Issued(ss[i], j, l))
  {
    RunsAreSafe(ss, es, i);
    PlacedAt(ss[i], j, l);
  }

  /** When no call is under way, the daemon has finished every job and every push has arrived, all tasks are done and
      both tables of the client are empty. */
  lemma AllDeliveredMeansAllDone(ss: seq<State>, es: seq<Event>, i: nat)
    requires Run(ss, es) && i < |ss| && ss[i].phase.Idle? && ss[i].notDone == map[] && ss[i].pushes == {}
    ensures forall j, l :: Issued(ss[i], j, l) ==> (j, l) in ss[i].client.done
    ensures ss[i].client.pending == map[] && ss[i].client.early == map[]
  {
    var s := ss[i];
    RunsAreSafe(ss, es, i);
    forall j | j in s.issued ensures j !in s.client.early && (j in s.client.pending <==> Undone(s, j) != {}) {
      assert JobOk(s, j);
    }
    forall j, l | Issued(s, j, l) ensures (j, l) in s.client.done { PlacedAt(s, j, l); }
    forall j | j in s.issued ensures Undone(s, j) == {} {
      forall l | l in s.issued[j] ensures (j, l) in s.client.done { assert Issued(s, j, l); }
    }
    forall j ensures j !in s.client.pending && j !in s.client.early {
      assert j in s.issued ==> Undone(s, j) == {};
    }
  }

  // ---- the same in terms of the events ----

  /** A call's request is under way with its layers until the daemon serves or refuses it ... */
  lemma {:induction false} AskedSince(ss: seq<State>, es: seq<Event>, c: nat, i: nat)
    requires Run(ss, es) && c < i < |ss| && es[c].Call? && forall q :: c < q < i ==> !es[q].Serve? && !es[q].Refuse?
    ensures ss[i].phase == Asked(es[c].layers)
    decreases i
  {
    assert Step(ss[i - 1], es[i - 1], ss[i]);
    if c < i - 1 { AskedSince(ss, es, c, i - 1); }
  }

  /** ... which makes a job with a new number and just these layers, all of them to be done ... */
  lemma ServedJob(ss: seq<State>, es: seq<Event>, c: nat, v: nat)
    requires Run(ss, es) && c < v < |es| && es[c].Call? && es[v].Serve?
    requires forall q :: c < q < v ==> !es[q].Serve? && !es[q].Refuse?
    ensures var s, s', j := ss[v], ss[v + 1], ss[v].lastJob + 1;
            && j !in s.issued && j in s'.issued && s'.issued[j] == es[c].layers && s'.lastJob == j
            && j in s'.notDone && s'.notDone[j] == es[c].layers && s'.phase == Answered(j, es[c].layers)
  {
    AskedSince(ss, es, c, v);
    RunsAreSafe(ss, es, v);
    assert Step(ss[v], es[v], ss[v + 1]);
    NoFuture(ss[v], "");
  }

  /** ... and is registered under that number after its response was received, whatever pushes come in between. */
  lemma {:induction false} AnsweredSince(ss: seq<State>, es: seq<Event>, v: nat, i: nat)
    requires Run(ss, es) && v < i < |ss| && es[v].Serve? && ss[v].phase.Asked? && forall q :: v < q < i ==> !es[q].Register?
    ensures ss[i].phase.Answered? || ss[i].phase.Got?
    ensures ss[i].phase.job == ss[v].lastJob + 1 && ss[i].phase.layers == ss[v].phase.layers
    ensures ss[i].phase.Got? <==> exists q :: v < q < i && es[q].ReceiveResponse?
    decreases i
  {
    assert Step(ss[i - 1], es[i - 1], ss[i]);
    if v < i - 1 { AnsweredSince(ss, es, v, i - 1); }
  }

  /** After a registration, and after the response to a refused call, the client can call again. */
  lemma CallEnds(ss: seq<State>, es: seq<Event>, i: nat)
    requires Run(ss, es) && i < |es|
    ensures es[i].Register? ==> ss[i + 1].phase.Idle?
    ensures es[i].Refuse? ==> ss[i + 1].phase.Refused? && ss[i + 1].issued == ss[i].issued
    ensures es[i].ReceiveResponse? && ss[i].phase.Refused? ==> ss[i + 1].phase.Idle?
    ensures ss[i + 1].phase.Refused? && !ss[i].phase.Refused? ==> es[i].Refuse?
  {
    assert Step(ss[i], es[i], ss[i + 1]);
  }

  lemma {:induction false} IssuedStays(ss: seq<State>, es: seq<Event>, a: nat, i: nat, j: Job)
    requires Run(ss, es) && a <= i < |ss| && j in ss[a].issued
    ensures j in ss[i].issued && ss[i].issued[j] == ss[a].issued[j]
    decreases i
  {
    if a < i {
      IssuedStays(ss, es, a, i - 1, j);
      RunsAreSafe(ss, es, i - 1);
      assert Step(ss[i - 1], es[i - 1], ss[i]);
      NoFuture(ss[i - 1], "");
    }
  }

  ghost predicate Happened(es: seq<Event>, i: nat, e: Event) { exists p :: 0 <= p < i && p < |es| && es[p] == e }

  lemma HappenedStep(es: seq<Event>, i: nat, e: Event)
    requires i < |es|
    ensures Happened(es, i + 1, e) <==> Happened(es, i, e) || es[i] == e
  {
  }

  /** The life of one completion: with the daemon until it is polled, then pushed, and when the push was received early or
      marked. */
  ghost predicate Follows(s: State, es: seq<Event>, i: nat, j: Job, l: Layer) {
    && (AtDaemon(s, j, l) <==> Issued(s, j, l) && !Happened(es, i, Poll(j, l)))
    && ((j, l) in s.pushes <==> Happened(es, i, Poll(j, l)) && !Happened(es, i, ReceivePush(j, l)))
    && (l in Early(s.client, j) || (j, l) in s.client.done <==> Happened(es, i, ReceivePush(j, l)))
    && (Happened(es, i, Poll(j, l)) ==> Issued(s, j, l))
    && (Happened(es, i, ReceivePush(j, l)) ==> Happened(es, i, Poll(j, l)))
  }

  lemma {:induction false} CompletionFollows(ss: seq<State>, es: seq<Event>, i: nat, j: Job, l: Layer)
    requires Run(ss, es) && i < |ss|
    ensures Follows(ss[i], es, i, j, l)
  {
    if i > 0 {
      CompletionFollows(ss, es, i - 1, j, l);
      MovesOne(ss, es, i - 1, j, l);
      FollowsOn(ss[i - 1], ss[i], es, i - 1, j, l);
    }
  }

  /** What one step does to one completion. */
  ghost predicate Moves(s: State, e: Event, s': State, j: Job, l: Layer) {
    && (AtDaemon(s', j, l) <==> (AtDaemon(s, j, l) && e != Poll(j, l)) || (Issued(s', j, l) && !Issued(s, j, l)))
    && ((j, l) in s'.pushes <==> e == Poll(j, l) || ((j, l) in s.pushes && e != ReceivePush(j, l)))
    && (Issued(s, j, l) ==> Issued(s', j, l))
    && (e == Poll(j, l) ==> AtDaemon(s, j, l)) && (e == ReceivePush(j, l) ==> (j, l) in s.pushes)
    && (l in Early(s'.client, j) || (j, l) in s'.client.done <==>
          l in Early(s.client, j) || (j, l) in s.client.done || e == ReceivePush(j, l))
  }

  lemma FollowsOn(s: State, s': State, es: seq<Event>, i: nat, j: Job, l: Layer)
    requires i < |es| && Moves(s, es[i], s', j, l) && Follows(s, es, i, j, l)
    ensures Follows(s', es, i + 1, j, l)
  {
    HappenedStep(es, i, Poll(j, l));
    HappenedStep(es, i, ReceivePush(j, l));
  }

  lemma MovesOne(ss: seq<State>, es: seq<Event>, i: nat, j: Job, l: Layer)
    requires Run(ss, es) && i < |es|
    ensures Moves(ss[i], es[i], ss[i + 1], j, l)
  {
    var s, s', e := ss[i], ss[i + 1], es[i];
    RunsAreSafe(ss, es, i);
    assert Step(s, e, s');
    match e
    case Serve =>
      NoFuture(s, l);
      PlacedAt(s, j, l);
    case Register =>
      assert (j, l) in Pairs(s.phase.job, Early(s.client, s.phase.job)) <==> j == s.phase.job && l in Early(s.client, s.phase.job);
    case ReceivePush(a, b) => PushFinds(s, a, b);
    case _ =>
  }

  /** So a task is done exactly when the push of its layer was received and its job is registered. */
  lemma DoneExactlyWhen(ss: seq<State>, es: seq<Event>, i: nat, j: Job, l: Layer)
    requires Run(ss, es) && i < |ss|
    ensures (j, l) in ss[i].client.done <==> Happened(es, i, ReceivePush(j, l)) && !Unregistered(ss[i], j)
  {
    var s := ss[i];
    CompletionFollows(ss, es, i, j, l);
    RunsAreSafe(ss, es, i);
    PlacedAt(s, j, l);
    if j in s.issued {
      assert JobOk(s, j);
      if Unregistered(s, j) && Issued(s, j, l) { assert l in Undone(s, j); }
    }
  }

  /** The daemon forgets a job with its last layer. */
  lemma {:induction false} NoEmptyJobs(ss: seq<State>, es: seq<Event>, i: nat, j: Job)
    requires Run(ss, es) && i < |ss|
    ensures j in ss[i].notDone ==> ss[i].notDone[j] != {}
  {
    if i > 0 {
      NoEmptyJobs(ss, es, i - 1, j);
      RunsAreSafe(ss, es, i - 1);
      assert Step(ss[i - 1], es[i - 1], ss[i]);
    }
  }
}
