/** ThreadPool::run and ThreadPool::loop: runs are serialised by run_mutex_, the caller is tid 0, and detached workers
    wake up, possibly late, on a new generation. Each event is one section under mutex_ or one step outside it. */
module ThreadPool {
  /** A function passed to run. */
  type Fn = nat

  /** A worker inside a function knows only the pointer it read; `run` records the generation it read it in. */
  datatype Mode = Checking | Asleep | Running(run: nat, fn: Fn)

  datatype Worker = Worker(mode: Mode, seen: nat)

  datatype Caller =
    | Outside       // no run in progress
    | Published     // stored fn_, team_, pending_ and the generation; wake_.notify_all to come
    | Working       // inside fn(0)
    | Waiting       // about to look at pending_
    | Blocked       // asleep on done_

  /** workers[t] is the thread with tid t (tid 0 is the caller). The histories hold the (run, tid) pairs that entered
      and left a function, in the order they entered, the function each of them called, and the team size and the function
      of every run. */
  datatype State = State(
    generation: nat, fn: Fn, team: nat, pending: int, caller: Caller, workers: seq<Worker>,
    teams: seq<nat>, fns: seq<Fn>, started: seq<(int, int)>, called: map<(int, int), Fn>, finished: set<(int, int)>)

  datatype Event =
    | Publish(n: nat, fn: Fn)
    | NotifyAll
    | FinishOwn
    | CheckDone
    | Look(tid: nat)      // a worker evaluates its wait condition
    | Finish(tid: nat)    // a worker comes back from the function
    | Spurious(tid: nat)
    | CallerSpurious

  ghost predicate Init(s: State) {
    && |s.workers| > 0 && s.generation == 0 && s.team == 0 && s.pending == 0 && s.caller.Outside?
    && (forall t :: 0 <= t < |s.workers| ==> s.workers[t] == Worker(Checking, 0))
    && s.teams == [0] && s.fns == [s.fn] && s.started == [] && s.called == map[] && s.finished == {}
  }

  predicate IsWorker(s: State, t: nat) { 0 < t < |s.workers| }

  predicate Enabled(s: State, e: Event) {
    match e
    case Publish(n, _) => s.caller.Outside? && 1 <= n <= |s.workers|
    case NotifyAll => s.caller.Published?
    case FinishOwn => s.caller.Working?
    case CheckDone => s.caller.Waiting?
    case Look(t) => IsWorker(s, t) && s.workers[t].mode.Checking?
    case Finish(t) => IsWorker(s, t) && s.workers[t].mode.Running?
    case Spurious(t) => IsWorker(s, t) && s.workers[t].mode.Asleep?
    case CallerSpurious => s.caller.Blocked?
  }

  function Awake(ws: seq<Worker>): (r: seq<Worker>)
    ensures |r| == |ws|
    ensures forall t :: 0 <= t < |ws| ==> r[t] == if ws[t].mode.Asleep? then ws[t].(mode := Checking) else ws[t]
  {
    seq(|ws|, t requires 0 <= t < |ws| => if ws[t].mode.Asleep? then ws[t].(mode := Checking) else ws[t])
  }

  function After(s: State, e: Event): State
    requires Enabled(s, e)
  {
    match e
    case Publish(n, fn) =>
      s.(generation := s.generation + 1, fn := fn, team := n, pending := n - 1, caller := Published,
         teams := s.teams + [n], fns := s.fns + [fn])
    case NotifyAll =>
      // the caller uses its own argument, which is what it published
      s.(workers := Awake(s.workers), caller := Working, started := s.started + [(s.generation, 0)],
         called := s.called[(s.generation, 0) := s.fn])
    case FinishOwn => s.(caller := Waiting, finished := s.finished + {(s.generation, 0)})
    case CheckDone => s.(caller := if s.pending == 0 then Outside else Blocked)
    case Look(t) =>
      if s.generation == s.workers[t].seen then s.(workers := s.workers[t := s.workers[t].(mode := Asleep)])
      else if t >= s.team then s.(workers := s.workers[t := Worker(Checking, s.generation)])
      else
        s.(workers := s.workers[t := Worker(Running(s.generation, s.fn), s.generation)],
           started := s.started + [(s.generation, t)], called := s.called[(s.generation, t) := s.fn])
    case Finish(t) =>
      s.(workers := s.workers[t := s.workers[t].(mode := Checking)],
         finished := s.finished + {(s.workers[t].mode.run, t)},
         pending := s.pending - 1,
         caller := if s.pending - 1 == 0 && s.caller.Blocked? then Waiting else s.caller)   // done_.notify_one
    case Spurious(t) => s.(workers := s.workers[t := s.workers[t].(mode := Checking)])
    case CallerSpurious => s.(caller := Waiting)
  }

  ghost predicate Step(s: State, e: Event, s': State) { Enabled(s, e) && s' == After(s, e) }

  ghost predicate Run(ss: seq<State>, es: seq<Event>) {
    && |ss| == |es| + 1
    && Init(ss[0])
    && forall i :: 0 <= i < |es| ==> Step(ss[i], es[i], ss[i + 1])
  }

  // ---- the invariant ----

  /** How many worker tids below n have not come back from run g. */
  function Missing(finished: set<(int, int)>, g: int, n: nat): nat {
    if n <= 1 then 0 else Missing(finished, g, n - 1) + if (g, n - 1) in finished then 0 else 1
  }

  lemma {:induction false} MissingOther(finished: set<(int, int)>, g: int, n: nat, p: (int, int))
    requires p.0 != g || p.1 >= n || p.1 <= 0
    ensures Missing(finished + {p}, g, n) == Missing(finished, g, n)
  {
    if n > 1 { MissingOther(finished, g, n - 1, p); }
  }

  lemma {:induction false} MissingOne(finished: set<(int, int)>, g: int, n: nat, t: int)
    requires 0 < t < n && (g, t) !in finished
    ensures Missing(finished + {(g, t)}, g, n) == Missing(finished, g, n) - 1
  {
    if t == n - 1 { MissingOther(finished, g, n - 1, (g, t)); } else { MissingOne(finished, g, n - 1, t); }
  }

  lemma {:induction false} MissingAll(finished: set<(int, int)>, g: int, n: nat)
    requires n > 0 && forall t :: (g, t) !in finished
    ensures Missing(finished, g, n) == n - 1
  {
    if n > 1 { MissingAll(finished, g, n - 1); }
  }

  lemma {:induction false} MissingNone(finished: set<(int, int)>, g: int, n: nat, t: int)
    requires Missing(finished, g, n) == 0 && 0 < t < n
    ensures (g, t) in finished
  {
    if t < n - 1 { MissingNone(finished, g, n - 1, t); }
  }

  lemma {:induction false} MissingSome(finished: set<(int, int)>, g: int, n: nat) returns (t: nat)
    requires Missing(finished, g, n) > 0
    ensures 0 < t < n && (g, t) !in finished
  {
    if (g, n - 1) !in finished { t := n - 1; } else { t := MissingSome(finished, g, n - 1); }
  }

  ghost predicate WorkerOk(s: State, t: nat)
    requires t < |s.workers|
  {
    var w := s.workers[t];
    && w.seen <= s.generation
    && (w.mode.Running? ==> w.mode.fn == s.fn && w.mode.run == w.seen == s.generation && t < s.team && (w.seen, t) !in s.finished && !s.caller.Outside?)
    // inside the team and not finished: running, or has not noticed the run yet
    && (t < s.team && (s.generation, t) !in s.finished ==> w.mode.Running? || w.seen < s.generation)
    // nobody sleeps through a run
    && (w.mode.Asleep? && w.seen != s.generation ==> s.caller.Published?)
    && (w.mode.Running? ==> (w.seen, t) in s.started)
    && (forall p :: p in s.started && p.1 == t ==> p.0 <= w.seen)
  }

  ghost predicate Workers(s: State) { forall t :: 0 < t < |s.workers| ==> WorkerOk(s, t) }

  /** What was started is finished, running, or the caller's own call. */
  ghost predicate History(s: State) {
    && |s.teams| == |s.fns| == s.generation + 1 && s.teams[s.generation] == s.team <= |s.workers|
    && s.fns[s.generation] == s.fn
    && (forall p :: p in s.started ==> p in s.called && 0 < p.0 <= s.generation && s.called[p] == s.fns[p.0])
    && (forall p :: p in s.started ==> 0 < p.0 <= s.generation && 0 <= p.1 < s.teams[p.0])
    && (forall p :: p in s.finished ==> p in s.started)
    && (forall i, j :: 0 <= i < j < |s.started| ==> s.started[i] != s.started[j])
    && (!s.caller.Outside? ==> s.generation > 0 && s.team > 0)
    && (s.caller.Published? ==> (s.generation, 0) !in s.started)
    && (s.caller.Working? ==> (s.generation, 0) in s.started)
    && (s.caller.Waiting? || s.caller.Blocked? ==> (s.generation, 0) in s.finished)
    && (forall g :: 0 < g < s.generation ==> AllBack(s, g))
    && (s.caller.Outside? ==> AllBack(s, s.generation))
  }

  /** Every tid of run g has come back. */
  ghost predicate AllBack(s: State, g: nat)
    requires g < |s.teams|
  {
    forall t :: 0 <= t < s.teams[g] && g > 0 ==> (g, t) in s.finished
  }

  ghost predicate Counted(s: State) {
    && s.pending == Missing(s.finished, s.generation, s.team)
    && (s.caller.Blocked? ==> s.pending > 0)
  }

  ghost predicate Inv(s: State) { |s.workers| > 0 && Workers(s) && History(s) && Counted(s) }

  // ---- the caller's steps ----

  lemma PublishKeeps(s: State, n: nat, fn: Fn)
    requires Inv(s) && Enabled(s, Publish(n, fn))
    ensures Inv(After(s, Publish(n, fn)))
  {
    var s', g := After(s, Publish(n, fn)), s.generation + 1;
    forall p | p in s'.started ensures p in s'.called && 0 < p.0 <= g && s'.called[p] == s'.fns[p.0] {
      assert s'.fns[p.0] == s.fns[p.0];
    }
    forall t ensures (g, t) !in s.finished && (g, t) !in s.started {
      assert (g, t) in s.finished ==> (g, t) in s.started;
    }
    MissingAll(s'.finished, g, n);
    forall t | 0 < t < |s'.workers| ensures WorkerOk(s', t) { assert WorkerOk(s, t); }
    assert s'.teams[..g] == s.teams;
    forall h | 0 < h < g ensures AllBack(s', h) {
      assert AllBack(s, h);
      assert s'.teams[h] == s.teams[h];
    }
    forall p | p in s'.started ensures 0 < p.0 <= g && 0 <= p.1 < s'.teams[p.0] { assert s'.teams[p.0] == s.teams[p.0]; }
  }

  lemma NotifyKeeps(s: State)
    requires Inv(s) && Enabled(s, NotifyAll)
    ensures Inv(After(s, NotifyAll))
  {
    var s' := After(s, NotifyAll);
    assert (s.generation, 0) !in s.started;
    forall t | 0 < t < |s'.workers| ensures WorkerOk(s', t) { assert WorkerOk(s, t); }
    forall h | 0 < h < s.generation ensures AllBack(s', h) { assert AllBack(s, h); }
  }

  lemma FinishOwnKeeps(s: State)
    requires Inv(s) && Enabled(s, FinishOwn)
    ensures Inv(After(s, FinishOwn))
  {
    var s' := After(s, FinishOwn);
    MissingOther(s.finished, s.generation, s.team, (s.generation, 0));
    forall t | 0 < t < |s'.workers| ensures WorkerOk(s', t) { assert WorkerOk(s, t); }
    forall h | 0 < h < s.generation ensures AllBack(s', h) { assert AllBack(s, h); }
  }

  lemma CheckDoneKeeps(s: State, e: Event)
    requires Inv(s) && Enabled(s, e) && (e.CheckDone? || e.CallerSpurious?)
    ensures Inv(After(s, e))
  {
    var s' := After(s, e);
    forall h | 0 < h < s.generation ensures AllBack(s', h) { assert AllBack(s, h); }
    forall t | 0 < t < s.team ensures s.pending == 0 ==> (s.generation, t) in s.finished {
      if s.pending == 0 { MissingNone(s.finished, s.generation, s.team, t); }
    }
    forall t | 0 < t < |s'.workers| ensures WorkerOk(s', t) { assert WorkerOk(s, t); }
  }

  // ---- the workers' steps ----

  lemma LookKeeps(s: State, t: nat)
    requires Inv(s) && Enabled(s, Look(t))
    ensures Inv(After(s, Look(t)))
  {
    var s' := After(s, Look(t));
    assert WorkerOk(s, t);
    forall u | 0 < u < |s'.workers| ensures WorkerOk(s', u) { assert WorkerOk(s, u); }
    forall h | 0 < h < s.generation ensures AllBack(s', h) { assert AllBack(s, h); }
  }

  lemma FinishKeeps(s: State, t: nat)
    requires Inv(s) && Enabled(s, Finish(t))
    ensures Inv(After(s, Finish(t)))
  {
    var s' := After(s, Finish(t));
    assert WorkerOk(s, t);
    MissingOne(s.finished, s.generation, s.team, t);
    forall u | 0 < u < |s'.workers| ensures WorkerOk(s', u) { assert WorkerOk(s, u); }
    forall h | 0 < h < s.generation ensures AllBack(s', h) { assert AllBack(s, h); }
  }

  lemma SpuriousKeeps(s: State, t: nat)
    requires Inv(s) && Enabled(s, Spurious(t))
    ensures Inv(After(s, Spurious(t)))
  {
    var s' := After(s, Spurious(t));
    forall u | 0 < u < |s'.workers| ensures WorkerOk(s', u) { assert WorkerOk(s, u); }
    forall h | 0 < h < s.generation ensures AllBack(s', h) { assert AllBack(s, h); }
  }

  lemma StepKeeps(s: State, e: Event)
    requires Inv(s) && Enabled(s, e)
    ensures Inv(After(s, e))
  {
    match e
    case Publish(n, fn) => PublishKeeps(s, n, fn);
    case NotifyAll => NotifyKeeps(s);
    case FinishOwn => FinishOwnKeeps(s);
    case CheckDone => CheckDoneKeeps(s, e);
    case Look(t) => LookKeeps(s, t);
    case Finish(t) => FinishKeeps(s, t);
    case Spurious(t) => SpuriousKeeps(s, t);
    case CallerSpurious => CheckDoneKeeps(s, e);
  }

  lemma {:induction false} RunsAreSafe(ss: seq<State>, es: seq<Event>, i: nat)
    requires Run(ss, es) && i < |ss|
    ensures Inv(ss[i])
  {
    if i > 0 {
      RunsAreSafe(ss, es, i - 1);
      assert Step(ss[i - 1], es[i - 1], ss[i]);
      StepKeeps(ss[i - 1], es[i - 1]);
    } else {
      forall t | 0 < t < |ss[0].workers| ensures WorkerOk(ss[0], t) { }
    }
  }

  // ---- results ----

  /** run(n, fn) returns only when fn, the function passed to this run, has been executed exactly once for every tid below
      n and for no other. */
  lemma RunIsComplete(ss: seq<State>, es: seq<Event>, i: nat, g: nat, t: nat)
    requires Run(ss, es) && i < |ss| && ss[i].caller.Outside? && 0 < g <= ss[i].generation
    ensures |ss[i].teams| > g
    ensures t < ss[i].teams[g] <==> (g, t) in ss[i].started
    ensures t < ss[i].teams[g] <==> (g, t) in ss[i].finished
    ensures forall a, b :: 0 <= a < b < |ss[i].started| ==> ss[i].started[a] != ss[i].started[b]
    ensures |ss[i].fns| > g && (t < ss[i].teams[g] ==> (g, t) in ss[i].called && ss[i].called[(g, t)] == ss[i].fns[g])
  {
    var s := ss[i];
    RunsAreSafe(ss, es, i);
    assert AllBack(s, g);
    if t < s.teams[g] { assert (g, t) in s.finished; }
  }

  /** The pointer that a thread inside a function has read is the one that the run in progress stored, whatever runs the
      thread missed before: no thread uses the function of a finished run. */
  lemma OnlyTheCurrentFunction(ss: seq<State>, es: seq<Event>, i: nat, t: nat)
    requires Run(ss, es) && i < |ss| && IsWorker(ss[i], t) && ss[i].workers[t].mode.Running?
    ensures !ss[i].caller.Outside? && ss[i].workers[t].mode.run == ss[i].generation < |ss[i].fns| && t < ss[i].team
    ensures ss[i].workers[t].mode.fn == ss[i].fn == ss[i].fns[ss[i].generation]
  {
    RunsAreSafe(ss, es, i);
    assert WorkerOk(ss[i], t);
  }

  /** An event that takes the run in progress forward. */
  predicate Advances(s: State, e: Event) {
    Enabled(s, e) &&
    match e
    case NotifyAll => true
    case FinishOwn => true
    case CheckDone => true
    case Finish(_) => true
    case Look(t) => s.generation != s.workers[t].seen && t < s.team
    case _ => false
  }

  /** No reachable state is stuck: while a run is in progress some thread can take it forward. */
  lemma NoDeadlock(ss: seq<State>, es: seq<Event>, i: nat)
    requires Run(ss, es) && i < |ss| && !ss[i].caller.Outside?
    ensures exists e :: Advances(ss[i], e)
  {
    var s := ss[i];
    RunsAreSafe(ss, es, i);
    match s.caller
    case Published => assert Advances(s, NotifyAll);
    case Working => assert Advances(s, FinishOwn);
    case Waiting => assert Advances(s, CheckDone);
    case Blocked =>
      var t := MissingSome(s.finished, s.generation, s.team);
      assert WorkerOk(s, t);
      if s.workers[t].mode.Running? { assert Advances(s, Finish(t)); } else { assert Advances(s, Look(t)); }
  }

  // ---- every run ends ----

  /** Run g is the g-th call of run, with its own arguments. */
  lemma {:induction false} PublishedRun(ss: seq<State>, es: seq<Event>, p: nat, i: nat)
    requires Run(ss, es) && p < i < |ss| && es[p].Publish?
    ensures Recorded(ss[i], ss[p].generation + 1, es[p].n, es[p].fn)
    decreases i
  {
    if p < i - 1 {
      PublishedRun(ss, es, p, i - 1);
      StaysRecorded(ss, es, i - 1, ss[p].generation + 1, es[p].n, es[p].fn);
    } else {
      Publishes(ss, es, p);
    }
  }

  ghost predicate Recorded(s: State, g: nat, n: nat, fn: Fn) {
    g < |s.teams| == |s.fns| && s.teams[g] == n && s.fns[g] == fn && g <= s.generation
  }

  lemma Publishes(ss: seq<State>, es: seq<Event>, p: nat)
    requires Run(ss, es) && p < |es| && es[p].Publish?
    ensures Recorded(ss[p + 1], ss[p].generation + 1, es[p].n, es[p].fn)
  {
    RunsAreSafe(ss, es, p);
    assert Step(ss[p], es[p], ss[p + 1]);
  }

  lemma StaysRecorded(ss: seq<State>, es: seq<Event>, i: nat, g: nat, n: nat, fn: Fn)
    requires Run(ss, es) && i < |es| && Recorded(ss[i], g, n, fn)
    ensures Recorded(ss[i + 1], g, n, fn)
  {
    assert Step(ss[i], es[i], ss[i + 1]);
  }

  function Elements(s: seq<(int, int)>): set<(int, int)> { set p | p in s }

  lemma OneMore(s: seq<(int, int)>, p: (int, int))
    ensures Elements(s + [p]) == Elements(s) + {p}
  {
  }

  /** How far the caller still has to go. */
  function Ahead(c: Caller): nat {
    match c
    case Published => 4
    case Working => 3
    case Waiting => 2
    case Blocked => 1
    case Outside => 0
  }

  /** What is left of the run in progress: workers that have not entered the function, workers that have not come back, and
      the caller's own steps. */
  function Todo(s: State): int {
    Missing(Elements(s.started), s.generation, s.team) + 2 * Missing(s.finished, s.generation, s.team) + Ahead(s.caller)
  }

  lemma LookTodo(s: State, t: nat)
    requires Inv(s) && Enabled(s, Look(t))
    ensures Todo(After(s, Look(t))) == Todo(s) - if s.generation != s.workers[t].seen && t < s.team then 1 else 0
  {
    assert WorkerOk(s, t);
    if s.generation != s.workers[t].seen && t < s.team {
      assert (s.generation, t) !in Elements(s.started);
      MissingOne(Elements(s.started), s.generation, s.team, t);
      OneMore(s.started, (s.generation, t));
    }
  }

  lemma FinishTodo(s: State, t: nat)
    requires Inv(s) && Enabled(s, Finish(t))
    ensures Todo(After(s, Finish(t))) < Todo(s)
  {
    assert WorkerOk(s, t);
    MissingOne(s.finished, s.generation, s.team, t);
  }

  lemma CallerTodo(s: State, e: Event)
    requires Inv(s) && Enabled(s, e) && (e.NotifyAll? || e.FinishOwn? || e.CheckDone?)
    ensures Todo(After(s, e)) < Todo(s)
  {
    MissingOther(s.finished, s.generation, s.team, (s.generation, 0));
    MissingOther(Elements(s.started), s.generation, s.team, (s.generation, 0));
    OneMore(s.started, (s.generation, 0));
  }

  /** Every step that NoDeadlock promises brings the run nearer to its end, and no other step but a spurious wake-up of the
      caller takes it back: a run of a team of n is over after at most 3 * n + 1 of them. */
  lemma AdvancesEnd(ss: seq<State>, es: seq<Event>, i: nat, e: Event)
    requires Run(ss, es) && i < |ss| && Enabled(ss[i], e)
    ensures Todo(ss[i]) >= 0 && (Todo(ss[i]) == 0 ==> ss[i].caller.Outside?)
    ensures Advances(ss[i], e) ==> Todo(After(ss[i], e)) < Todo(ss[i])
    ensures !e.Publish? && !e.CallerSpurious? ==> Todo(After(ss[i], e)) <= Todo(ss[i])
    ensures e.CallerSpurious? ==> Todo(After(ss[i], e)) == Todo(ss[i]) + 1
    ensures e.Publish? ==> Todo(After(ss[i], e)) == 3 * e.n + 1
  {
    var s := ss[i];
    RunsAreSafe(ss, es, i);
    match e
    case Publish(n, _) => PublishTodo(s, e);
    case NotifyAll => CallerTodo(s, e);
    case FinishOwn => CallerTodo(s, e);
    case CheckDone => CallerTodo(s, e);
    case Look(t) => LookTodo(s, t);
    case Finish(t) => FinishTodo(s, t);
    case _ =>
  }

  lemma PublishTodo(s: State, e: Event)
    requires Inv(s) && Enabled(s, e) && e.Publish?
    ensures Todo(After(s, e)) == 3 * e.n + 1
  {
    var g := s.generation + 1;
    forall t ensures (g, t) !in s.finished && (g, t) !in Elements(s.started) {
      assert (g, t) in s.finished ==> (g, t) in s.started;
    }
    MissingAll(s.finished, g, e.n);
    MissingAll(Elements(s.started), g, e.n);
  }

  /** A worker takes part in a run exactly if it looks while the run is new to it and its tid is in the team; it skips a run
      that does not need it, and sleeps only when it has nothing new to see. */
  lemma LookDecides(ss: seq<State>, es: seq<Event>, i: nat, t: nat)
    requires Run(ss, es) && i < |es| && es[i] == Look(t)
    ensures IsWorker(ss[i], t) && t < |ss[i + 1].workers|
    ensures var s, w, w' := ss[i], ss[i].workers[t], ss[i + 1].workers[t];
            && (w'.mode.Running? <==> w.seen < s.generation && t < s.team)
            && (w'.mode.Asleep? <==> w.seen == s.generation)
            && (w'.mode.Checking? <==> w.seen < s.generation && t >= s.team)
            && w'.seen == s.generation
  {
    RunsAreSafe(ss, es, i);
    assert Step(ss[i], es[i], ss[i + 1]);
    assert WorkerOk(ss[i], t);
  }

  /** A sleeper looks again after every notification of a run, or by itself. */
  lemma SleepersWake(ss: seq<State>, es: seq<Event>, i: nat, t: nat)
    requires Run(ss, es) && i < |es| && IsWorker(ss[i], t) && (es[i].NotifyAll? || es[i] == Spurious(t))
    ensures t < |ss[i + 1].workers| && !ss[i + 1].workers[t].mode.Asleep?
  {
    assert Step(ss[i], es[i], ss[i + 1]);
  }

  /** The caller returns from its look at pending_ exactly if every other tid of its team has come back. */
  lemma ReturnsExactlyWhenDone(ss: seq<State>, es: seq<Event>, i: nat)
    requires Run(ss, es) && i < |es| && es[i].CheckDone?
    ensures ss[i + 1].caller.Outside? <==> forall t: nat :: 0 < t < ss[i].team ==> (ss[i].generation, t) in ss[i].finished
  {
    var s := ss[i];
    RunsAreSafe(ss, es, i);
    assert Step(s, es[i], ss[i + 1]);
    if s.pending == 0 {
      forall t: nat | 0 < t < s.team ensures (s.generation, t) in s.finished { MissingNone(s.finished, s.generation, s.team, t); }
    } else {
      var t := MissingSome(s.finished, s.generation, s.team);
    }
  }
}
