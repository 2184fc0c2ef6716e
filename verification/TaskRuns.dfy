/** Every run of a TaskQueue: any threads submit, move bundles, sort levels and shut down between the worker's steps. */
module TaskRuns {
  import opened TaskQueue

  datatype Worker = Absent | Awake | Asleep | Busy(item: Item) | Exited

  /** `notices` counts notify_one calls still to come; the histories record accepted, started and finished tasks. */
  datatype State = State(
    levels: Levels, status: Status, worker: Worker, notices: nat,
    accepted: seq<Item>, started: seq<Item>, finished: seq<Item>)

  datatype Event =
    | Start
    | Submit(level: nat, bundle: nat, key: int)
    | Notify
    | MoveBundles(ids: seq<nat>, level: nat)
    | Sort(level: nat)
    | BeginShutdown
    | EndShutdown
    | Look       // the worker checks its wait condition: sleep, exit or take a task
    | Spurious   // a condition variable may wake up by itself
    | Finish

  function Init(): State { State([[], [], [], []], Created, Absent, 0, [], [], []) }

  predicate Enabled(s: State, e: Event) {
    match e
    case Start => s.status.Created?
    case Submit(level, _, _) => s.status.Running? && level < LEVELS
    case Notify => s.notices > 0
    case MoveBundles(_, level) => level < LEVELS
    case Sort(level) => level < LEVELS
    case BeginShutdown => s.status.Created? || s.status.Running?
    case EndShutdown => s.status.Stopping? && s.worker.Exited?    // after join
    case Look => s.worker.Awake?
    case Spurious => s.worker.Asleep?
    case Finish => s.worker.Busy?
  }

  predicate AllEmpty(levels: Levels) { Urgent(levels, 0) >= |levels| }

  /** The predicate of the worker's wait. */
  predicate MayGo(s: State) { !s.status.Running? || !AllEmpty(s.levels) }

  function After(s: State, e: Event): State
    requires |s.levels| == LEVELS && Enabled(s, e)
  {
    match e
    case Start => s.(status := Running, worker := Awake)
    case Submit(level, bundle, key) =>
      var item := Item(|s.accepted|, level, bundle, key);
      s.(levels := s.levels[level := s.levels[level] + [item]], accepted := s.accepted + [item], notices := s.notices + 1)
    case Notify => s.(notices := s.notices - 1, worker := if s.worker.Asleep? then Awake else s.worker)
    case MoveBundles(ids, level) => s.(levels := Moved(s.levels, ids, level))
    case Sort(level) => s.(levels := s.levels[level := StableSort(s.levels[level])])
    case BeginShutdown =>
      if s.status.Created? then s.(status := Stopped) else s.(status := Stopping, notices := s.notices + 1)
    case EndShutdown => s.(status := Stopped)
    case Look =>
      if !MayGo(s) then s.(worker := Asleep)
      else if AllEmpty(s.levels) then s.(worker := Exited)
      else
        var item := s.levels[Urgent(s.levels, 0)][0];
        s.(levels := Taken(s.levels), worker := Busy(item), started := s.started + [item])
    case Spurious => s.(worker := Awake)
    case Finish => s.(worker := Awake, finished := s.finished + [s.worker.item])
  }

  ghost predicate Step(s: State, e: Event, s': State) {
    |s.levels| == LEVELS && Enabled(s, e) && s' == After(s, e)
  }

  ghost predicate Run(ss: seq<State>, es: seq<Event>) {
    && |ss| == |es| + 1
    && ss[0] == Init()
    && forall i :: 0 <= i < |es| ==> Step(ss[i], es[i], ss[i + 1])
  }

  // ---- nothing is lost: accepted = started + waiting ----

  function Waiting(levels: Levels): multiset<Item>
    requires |levels| == LEVELS
  {
    multiset(levels[0]) + multiset(levels[1]) + multiset(levels[2]) + multiset(levels[3])
  }

  ghost predicate Counted(s: State) {
    |s.levels| == LEVELS && multiset(s.accepted) == multiset(s.started) + Waiting(s.levels)
  }

  lemma AddOne(levels: Levels, l: nat, x: Item)
    requires |levels| == LEVELS && l < LEVELS
    ensures Waiting(levels[l := levels[l] + [x]]) == Waiting(levels) + multiset{x}
  {
  }

  lemma TakeOne(levels: Levels, l: nat)
    requires |levels| == LEVELS && l < LEVELS && levels[l] != []
    ensures Waiting(levels) == Waiting(levels[l := levels[l][1..]]) + multiset{levels[l][0]}
  {
    assert levels[l] == [levels[l][0]] + levels[l][1..];
  }

  lemma SortOne(levels: Levels, l: nat)
    requires |levels| == LEVELS && l < LEVELS
    ensures Waiting(levels[l := StableSort(levels[l])]) == Waiting(levels)
  {
    SortIsStable(levels[l]);
  }

  function Sum(levels: Levels, a: nat): multiset<Item>
    decreases |levels| - a
  {
    if a >= |levels| then multiset{} else multiset(levels[a]) + Sum(levels, a + 1)
  }

  lemma SumIsWaiting(levels: Levels)
    requires |levels| == LEVELS
    ensures Sum(levels, 0) == Waiting(levels)
  {
    assert Sum(levels, 3) == multiset(levels[3]) + Sum(levels, 4);
    assert Sum(levels, 2) == multiset(levels[2]) + Sum(levels, 3);
    assert Sum(levels, 1) == multiset(levels[1]) + Sum(levels, 2);
  }

  /** Above the target level a move only takes the bundles' tasks out. */
  lemma {:induction false} MovedOut(m: Levels, levels: Levels, ids: seq<nat>, a: nat)
    requires a <= |levels| == |m| && forall l :: a <= l < |m| ==> m[l] == Pick(NotBundles(ids), levels[l])
    ensures Sum(m, a) + multiset(Gather(levels, ids, a)) == Sum(levels, a)
    decreases |levels| - a
  {
    if a < |levels| {
      MovedOut(m, levels, ids, a + 1);
      PickSplits(ids, levels[a]);
      Regroup(multiset(m[a]), Sum(m, a + 1), Pick(Bundles(ids), levels[a]), Gather(levels, ids, a + 1),
              multiset(levels[a]), Sum(levels, a + 1));
    }
  }

  lemma Regroup(kept: multiset<Item>, sum: multiset<Item>, c: seq<Item>, g: seq<Item>, was: multiset<Item>, all: multiset<Item>)
    requires sum + multiset(g) == all && multiset(c) + kept == was
    ensures kept + sum + multiset(c + g) == was + all
  {
  }

  lemma {:induction false} SumBelow(m: Levels, levels: Levels, p: nat, a: nat)
    requires a <= p < |levels| == |m| && Sum(m, p) == Sum(levels, p)
    requires forall l :: 0 <= l < p ==> m[l] == levels[l]
    ensures Sum(m, a) == Sum(levels, a)
    decreases p - a
  {
    if a < p { SumBelow(m, levels, p, a + 1); }
  }

  lemma MovedAll(levels: Levels, ids: seq<nat>, p: nat)
    requires p < |levels|
    ensures Sum(Moved(levels, ids, p), 0) == Sum(levels, 0)
  {
    var m := Moved(levels, ids, p);
    MovedOut(m, levels, ids, p + 1);
    Shift(m[p], levels[p], Gather(levels, ids, p + 1), Sum(m, p + 1), Sum(levels, p + 1));
    SumBelow(m, levels, p, 0);
  }

  lemma Shift(b: seq<Item>, a: seq<Item>, g: seq<Item>, sum: multiset<Item>, all: multiset<Item>)
    requires sum + multiset(g) == all && b == a + g
    ensures multiset(b) + sum == multiset(a) + all
  {
  }

  lemma StepKeepsCounted(s: State, e: Event)
    requires Counted(s) && Enabled(s, e)
    ensures Counted(After(s, e))
  {
    match e
    case Submit(_, _, _) => SubmitCounted(s, e);
    case MoveBundles(ids, level) =>
      MovedAll(s.levels, ids, level);
      SumIsWaiting(s.levels);
      SumIsWaiting(Moved(s.levels, ids, level));
    case Sort(level) => SortOne(s.levels, level);
    case Look =>
      if !AllEmpty(s.levels) { LookCounted(s); }
    case _ =>
  }

  lemma SubmitCounted(s: State, e: Event)
    requires Counted(s) && Enabled(s, e) && e.Submit?
    ensures Counted(After(s, e))
  {
    AddOne(s.levels, e.level, Item(|s.accepted|, e.level, e.bundle, e.key));
  }

  lemma LookCounted(s: State)
    requires Counted(s) && Enabled(s, Look) && !AllEmpty(s.levels)
    ensures Counted(After(s, Look))
  {
    var l := Urgent(s.levels, 0);
    TakeOne(s.levels, l);
    assert multiset(s.started + [s.levels[l][0]]) == multiset(s.started) + multiset{s.levels[l][0]};
  }

  // ---- order: untagged tasks of one level and sort key are a FIFO ----

  /** The accepted tasks of class c are the started ones followed by the waiting ones, in order of acceptance; those
      waiting are all on level c.level. */
  ghost predicate Fifo(s: State, c: Sel)
    requires c.Untagged? && c.level < |s.levels|
  {
    && Pick(c, s.accepted) == Pick(c, s.started) + Pick(c, s.levels[c.level])
    && forall l :: 0 <= l < |s.levels| && l != c.level ==> Pick(c, s.levels[l]) == []
  }

  lemma {:induction false} GatherHasNoUntagged(levels: Levels, ids: seq<nat>, a: nat, c: Sel)
    requires c.Untagged?
    ensures Pick(c, Gather(levels, ids, a)) == []
    decreases |levels| - a
  {
    if a < |levels| {
      GatherHasNoUntagged(levels, ids, a + 1, c);
      BundlesHoldNoUntagged(c.level, c.key, ids, levels[a]);
      PickConcat(c, Pick(Bundles(ids), levels[a]), Gather(levels, ids, a + 1));
    }
  }

  /** Moving bundles leaves every class on every level alone. */
  lemma MoveKeepsUntagged(levels: Levels, ids: seq<nat>, p: nat, c: Sel, l: nat)
    requires c.Untagged? && p < |levels| && l < |levels|
    ensures Pick(c, Moved(levels, ids, p)[l]) == Pick(c, levels[l])
  {
    if l == p {
      GatherHasNoUntagged(levels, ids, p + 1, c);
      PickConcat(c, levels[p], Gather(levels, ids, p + 1));
    } else if l > p {
      UntaggedStay(c.level, c.key, ids, levels[l]);
    }
  }

  lemma AppendPick(c: Sel, s: seq<Item>, x: Item)
    ensures Pick(c, s + [x]) == Pick(c, s) + Single(c, x)
  {
    PickConcat(c, s, [x]);
    PickOne(c, x);
  }

  lemma SubmitFifo(s: State, c: Sel, e: Event)
    requires |s.levels| == LEVELS && c.Untagged? && c.level < LEVELS && Fifo(s, c) && e.Submit? && Enabled(s, e)
    ensures Fifo(After(s, e), c)
  {
    var item := Item(|s.accepted|, e.level, e.bundle, e.key);
    AppendPick(c, s.accepted, item);
    AppendPick(c, s.levels[e.level], item);
    Reassociate(Pick(c, s.started), Pick(c, s.levels[c.level]), Single(c, item));
    if e.level != c.level {
      assert Single(c, item) == [];
    }
  }

  lemma LookFifo(s: State, c: Sel)
    requires |s.levels| == LEVELS && c.Untagged? && c.level < LEVELS && Fifo(s, c) && Enabled(s, Look)
    ensures Fifo(After(s, Look), c)
  {
    if !AllEmpty(s.levels) {
      var l := Urgent(s.levels, 0);
      var x, rest := s.levels[l][0], s.levels[l][1..];
      assert s.levels[l] == [x] + rest;
      PickFirst(c, x, rest);
      AppendPick(c, s.started, x);
      Reassociate(Pick(c, s.started), Single(c, x), Pick(c, rest));
      if l != c.level { NothingHere(c, x, rest); }
    }
  }

  lemma Reassociate(a: seq<Item>, b: seq<Item>, c: seq<Item>)
    ensures a + (b + c) == a + b + c
  {
  }

  lemma NothingHere(c: Sel, x: Item, rest: seq<Item>)
    requires Single(c, x) + Pick(c, rest) == []
    ensures Single(c, x) == [] && Pick(c, rest) == []
  {
    assert |Single(c, x) + Pick(c, rest)| == |Single(c, x)| + |Pick(c, rest)|;
  }

  lemma StepKeepsFifo(s: State, e: Event, c: Sel)
    requires |s.levels| == LEVELS && Enabled(s, e) && c.Untagged? && c.level < LEVELS && Fifo(s, c)
    ensures Fifo(After(s, e), c)
  {
    match e
    case Submit(_, _, _) => SubmitFifo(s, c, e);
    case MoveBundles(ids, level) =>
      forall l | 0 <= l < LEVELS ensures Pick(c, Moved(s.levels, ids, level)[l]) == Pick(c, s.levels[l]) {
        MoveKeepsUntagged(s.levels, ids, level, c, l);
      }
    case Sort(level) => SortKeepsPick(c, s.levels[level]);
    case Look => LookFifo(s, c);
    case _ =>
  }

  // ---- the worker ----

  ghost predicate WorkerInv(s: State) {
    && |s.levels| == LEVELS
    && s.started == s.finished + (if s.worker.Busy? then [s.worker.item] else [])
    && (forall i :: 0 <= i < |s.accepted| ==> s.accepted[i].id == i)
    && (s.status.Created? ==> s.worker.Absent?)
    && (s.worker.Absent? ==> s.accepted == [] && (s.status.Created? || s.status.Stopped?))
    && (s.worker.Exited? ==> AllEmpty(s.levels) && (s.status.Stopping? || s.status.Stopped?))
    && (s.status.Stopped? ==> s.worker.Absent? || s.worker.Exited?)
    && (s.worker.Asleep? && MayGo(s) ==> s.notices > 0)
  }

  lemma EmptyHasNoTask(levels: Levels)
    requires |levels| == LEVELS
    ensures AllEmpty(levels) <==> Waiting(levels) == multiset{}
  {
    if AllEmpty(levels) {
      assert forall i :: 0 <= i < LEVELS ==> levels[i] == [];
      assert levels[0] == [] && levels[1] == [] && levels[2] == [] && levels[3] == [];
    } else {
      TakeOne(levels, Urgent(levels, 0));
      assert levels[Urgent(levels, 0)][0] in Waiting(levels);
    }
  }

  /** Moving and sorting never empty the queue or fill it. */
  lemma RearrangeKeepsEmpty(s: State, e: Event)
    requires Counted(s) && Enabled(s, e) && (e.MoveBundles? || e.Sort?)
    ensures |After(s, e).levels| == LEVELS && (AllEmpty(After(s, e).levels) <==> AllEmpty(s.levels))
  {
    var s' := After(s, e);
    match e {
      case MoveBundles(ids, level) =>
        MovedAll(s.levels, ids, level);
        SumIsWaiting(s.levels);
        SumIsWaiting(s'.levels);
      case Sort(level) => SortOne(s.levels, level);
    }
    EmptyHasNoTask(s.levels);
    EmptyHasNoTask(s'.levels);
  }

  lemma StepKeepsWorker(s: State, e: Event)
    requires Counted(s) && WorkerInv(s) && Enabled(s, e)
    ensures WorkerInv(After(s, e))
  {
    match e
    case Submit(_, _, _) => SubmitWakes(s, e);
    case MoveBundles(_, _) => RearrangeKeepsEmpty(s, e);
    case Sort(_) => RearrangeKeepsEmpty(s, e);
    case Look => WorkerSteps(s, e);
    case Notify => WorkerSteps(s, e);
    case Finish => WorkerSteps(s, e);
    case Spurious => WorkerSteps(s, e);
    case _ =>
  }

  lemma WorkerSteps(s: State, e: Event)
    requires WorkerInv(s) && Enabled(s, e) && (e.Look? || e.Notify? || e.Finish? || e.Spurious?)
    ensures WorkerInv(After(s, e))
  {
  }

  lemma SubmitWakes(s: State, e: Event)
    requires WorkerInv(s) && Enabled(s, e) && e.Submit?
    ensures WorkerInv(After(s, e))
  {
  }

  lemma {:induction false} RunsAreSafe(ss: seq<State>, es: seq<Event>, i: nat)
    requires Run(ss, es) && i < |ss|
    ensures Counted(ss[i]) && WorkerInv(ss[i])
  {
    if i > 0 {
      RunsAreSafe(ss, es, i - 1);
      assert Step(ss[i - 1], es[i - 1], ss[i]);
      StepKeepsCounted(ss[i - 1], es[i - 1]);
      StepKeepsWorker(ss[i - 1], es[i - 1]);
    }
  }

  lemma {:induction false} RunsAreFifo(ss: seq<State>, es: seq<Event>, i: nat, c: Sel)
    requires Run(ss, es) && i < |ss| && c.Untagged? && c.level < LEVELS
    ensures |ss[i].levels| == LEVELS && Fifo(ss[i], c)
  {
    RunsAreSafe(ss, es, i);
    if i > 0 {
      RunsAreFifo(ss, es, i - 1, c);
      assert Step(ss[i - 1], es[i - 1], ss[i]);
      StepKeepsFifo(ss[i - 1], es[i - 1], c);
    }
  }

  /** After every run in which the queue has stopped, each accepted task has been executed exactly once and nothing
      else has. */
  lemma StoppedMeansAllDone(ss: seq<State>, es: seq<Event>, i: nat)
    requires Run(ss, es) && i < |ss| && ss[i].status.Stopped?
    ensures multiset(ss[i].finished) == multiset(ss[i].accepted)
  {
    RunsAreSafe(ss, es, i);
    EmptyHasNoTask(ss[i].levels);
    assert ss[i].finished + [] == ss[i].finished;
    if ss[i].worker.Absent? { assert |multiset(ss[i].started)| <= |multiset(ss[i].accepted)| == 0; }
  }

  /** At any time, no task has been executed more often than it was accepted. */
  lemma NeverTwice(ss: seq<State>, es: seq<Event>, i: nat)
    requires Run(ss, es) && i < |ss|
    ensures multiset(ss[i].started) <= multiset(ss[i].accepted)
    ensures forall a, b :: 0 <= a < b < |ss[i].accepted| ==> ss[i].accepted[a] != ss[i].accepted[b]
  {
    RunsAreSafe(ss, es, i);
  }

  /** The worker never misses a task or a shutdown: asleep with work to do, it has a notification coming. */
  lemma NoLostWakeup(ss: seq<State>, es: seq<Event>, i: nat)
    requires Run(ss, es) && i < |ss| && ss[i].worker.Asleep? && MayGo(ss[i])
    ensures |ss[i].levels| == LEVELS && Enabled(ss[i], Notify) && After(ss[i], Notify).worker.Awake?
  {
    RunsAreSafe(ss, es, i);
  }

  // ---- consequence for two tasks ----

  lemma {:induction false} PickRising(c: Sel, s: seq<Item>)
    requires forall i, j :: 0 <= i < j < |s| ==> s[i].id < s[j].id
    ensures forall i, j :: 0 <= i < j < |Pick(c, s)| ==> Pick(c, s)[i].id < Pick(c, s)[j].id
  {
    if s != [] {
      var init := s[..|s| - 1];
      PickRising(c, init);
      forall x | x in Pick(c, init) ensures x.id < s[|s| - 1].id { assert x in init; }
    }
  }

  lemma PrefixFirst(p: seq<Item>, a: seq<Item>, b: seq<Item>, x: Item, y: Item)
    requires p == a + b && (forall i, j :: 0 <= i < j < |p| ==> p[i].id < p[j].id)
    requires x in p && y in a && x.id < y.id
    ensures x in a
  {
    var j :| 0 <= j < |a| && a[j] == y;
    var i :| 0 <= i < |p| && p[i] == x;
    assert p[j] == y;
    if i > j { assert p[j].id < p[i].id; }
  }

  lemma EarlierIsDoneHere(s: State, x: Item, y: Item)
    requires WorkerInv(s) && x.level < LEVELS && Fifo(s, Untagged(x.level, x.key))
    requires x in s.accepted && y in s.started && x.id < y.id
    requires x.bundle == y.bundle == 0 && x.level == y.level && x.key == y.key
    ensures x in s.started && (s.worker == Busy(y) ==> x in s.finished)
  {
    var c := Untagged(x.level, x.key);
    PickRising(c, s.accepted);
    assert x in Pick(c, s.accepted) && y in Pick(c, s.started);
    PrefixFirst(Pick(c, s.accepted), Pick(c, s.started), Pick(c, s.levels[c.level]), x, y);
  }

  /** Two untagged tasks of one level and sort key: when the later one has started, so has the earlier one, and while
      the later one runs the earlier one has finished. */
  lemma EarlierIsDone(ss: seq<State>, es: seq<Event>, i: nat, x: Item, y: Item)
    requires Run(ss, es) && i < |ss|
    requires x in ss[i].accepted && y in ss[i].started && x.id < y.id
    requires x.bundle == y.bundle == 0 && x.level == y.level < LEVELS && x.key == y.key
    ensures x in ss[i].started && (ss[i].worker == Busy(y) ==> x in ss[i].finished)
  {
    RunsAreSafe(ss, es, i);
    RunsAreFifo(ss, es, i, Untagged(x.level, x.key));
    EarlierIsDoneHere(ss[i], x, y);
  }
}
