/** zip_to_mem, unzip_from_mem and UnzipFromMemWork::execute on the task queue: compress tasks put their keys into the
    cache; a load looks in the cache and, for the keys that miss, in the files of persisted groups; a load that still
    misses a key resubmits itself once at the lowest level, and a second miss aborts. */
module Retry {
  import opened Wrappers
  import Q = TaskRuns
  import T = TaskQueue
  import L = Labels
  import D = Persistence

  /** A full label: the group, which is a row of the record table, and the tensor. */
  datatype Key = Key(group: string, tensor: string)

  datatype Job =
    | Zip(keys: set<Key>)
    | Load(keys: set<Key>)
    | Again(keys: set<Key>, first: nat)   // the retry of load `first`
    | Other                               // any other work of the queue, such as freeing buffers

  /** Where the running task is: not looked for its keys yet, missed one, or about to return. */
  datatype Phase = Fresh | Missed | Done

  datatype Fault = RetryMissed(key: Key) | FileMissing(key: Key) | QueueStopping

  /** The record table and the files, as far as get looks at them; without a record or a storage nothing is persisted. */
  datatype Disk = Disk(recorded: set<string>, persisted: set<string>, files: set<L.Path>)

  /** jobs[i] is the work of task i; `evicted` holds the keys that were evicted and neither put nor loaded since. */
  datatype State = State(
    q: Q.State, jobs: seq<Job>, cache: set<Key>, evicted: set<Key>, disk: Disk, phase: Phase, fault: Option<Fault>)

  datatype Event =
    | Queue(e: Q.Event)
    | SubmitZip(keys: set<Key>)
    | SubmitLoad(keys: set<Key>, level: nat, bundle: nat, key: int)
    | Attempt(missing: Key)        // the running task's put or get; `missing` is the key that a failed get reports
    | Resubmit
    | Return
    | Evict(keys: set<Key>)
    | Record(groups: set<string>)        // Record.submit, by the put of the last layer
    | Persist(groups: set<string>)       // persist_groups
    | RecordEvict(groups: set<string>)   // Record.evict and the removals of evict_groups: unpersisted rows only

  /** The process starts with an empty cache and whatever an earlier one left on disk. */
  function Init(disk: Disk): State { State(Q.Init(), [], {}, {}, disk, Fresh, None) }

  predicate HasFile(d: Disk, k: Key) { L.ParseGroupKey(k.group).Some? && D.FileOf(k.group, k.tensor) in d.files }

  /** A get that does not find k in the cache loads it. */
  predicate OnDisk(d: Disk, k: Key) { k.group in d.persisted && HasFile(d, k) }

  function Loadable(s: State, keys: set<Key>): set<Key> { set k | k in keys && k !in s.cache && OnDisk(s.disk, k) }

  /** The row says persisted and the file is not there: storage.load aborts. */
  function Broken(s: State, keys: set<Key>): set<Key> {
    set k | k in keys && k !in s.cache && k.group in s.disk.persisted && !HasFile(s.disk, k)
  }

  function Absent(s: State, keys: set<Key>): set<Key> { set k | k in keys && k !in s.cache && k.group !in s.disk.persisted }

  /** persist_groups: the cached entries of the groups go to their files, and rows that exist are marked. */
  function Persisted(d: Disk, cache: set<Key>, groups: set<string>): Disk {
    var saved := set k | k in cache && k.group in groups && L.ParseGroupKey(k.group).Some?;
    d.(files := d.files + (set k | k in saved :: D.FileOf(k.group, k.tensor)),
       persisted := d.persisted + (set k | k in saved :: k.group) * d.recorded)
  }

  /** The queue step of an event; None when it leaves the queue alone. */
  datatype QStep = Stay | Go(e: Q.Event)

  const PlainLow := Q.Submit(T.LOW, 0, -1)

  predicate Enabled(s: State, e: Event) {
    s.fault.None? &&
    match e
    case Queue(qe) => !qe.Finish? && Q.Enabled(s.q, qe)
    case SubmitZip(_) => Q.Enabled(s.q, PlainLow)
    case SubmitLoad(_, level, bundle, key) => Q.Enabled(s.q, Q.Submit(level, bundle, key))
    case Attempt(missing) =>
      && s.q.worker.Busy? && s.q.worker.item.id < |s.jobs| && s.phase.Fresh?
      && var j := s.jobs[s.q.worker.item.id];
         (j.Load? || j.Again?) ==>
           if Broken(s, j.keys) != {} then missing in Broken(s, j.keys)
           else Absent(s, j.keys) != {} ==> missing in Absent(s, j.keys)
    case Resubmit => s.q.worker.Busy? && s.phase.Missed? && s.q.worker.item.id < |s.jobs| && s.jobs[s.q.worker.item.id].Load?
    case Return => s.q.worker.Busy? && s.phase.Done?
    case _ => true
  }

  function QueueStep(s: State, e: Event): (r: QStep)
    requires Enabled(s, e)
    ensures r.Go? ==> Q.Enabled(s.q, r.e)
  {
    match e
    case Queue(qe) => Go(qe)
    case SubmitZip(_) => Go(PlainLow)
    case SubmitLoad(_, level, bundle, key) => Go(Q.Submit(level, bundle, key))
    case Resubmit => if s.q.status.Running? then Go(PlainLow) else Stay
    case Return => Go(Q.Finish)
    case _ => Stay
  }

  function AfterQ(s: State, e: Event): Q.State
    requires |s.q.levels| == T.LEVELS && Enabled(s, e)
  {
    match QueueStep(s, e)
    case Stay => s.q
    case Go(qe) => Q.After(s.q, qe)
  }

  /** The job an event gives the queue, if it submits one. */
  function NewJob(s: State, e: Event): (r: seq<Job>)
    requires Enabled(s, e)
    ensures |r| == if QueueStep(s, e).Go? && QueueStep(s, e).e.Submit? then 1 else 0
  {
    match e
    case Queue(qe) => if qe.Submit? then [Other] else []
    case SubmitZip(keys) => [Zip(keys)]
    case SubmitLoad(keys, _, _, _) => [Load(keys)]
    case Resubmit =>
      var id := s.q.worker.item.id;
      if s.q.status.Running? then [Again(s.jobs[id].keys, id)] else []
    case _ => []
  }

  /** The get of a load or of its retry, on t. */
  function Got(s: State, t: State, keys: set<Key>, missing: Key): State
    requires s.q.worker.Busy? && s.q.worker.item.id < |s.jobs|
  {
    if Broken(s, keys) != {} then t.(fault := Some(FileMissing(missing)))
    else
      var u := t.(cache := s.cache + Loadable(s, keys), evicted := s.evicted - Loadable(s, keys));
      if Absent(s, keys) == {} then u.(phase := Done)
      else if s.jobs[s.q.worker.item.id].Load? then u.(phase := Missed)
      else u.(fault := Some(RetryMissed(missing)))
  }

  function After(s: State, e: Event): (s': State)
    requires |s.q.levels| == T.LEVELS && Enabled(s, e)
    ensures s'.q == AfterQ(s, e) && s'.jobs == s.jobs + NewJob(s, e)
  {
    var t := s.(q := AfterQ(s, e), jobs := s.jobs + NewJob(s, e));
    match e
    case Queue(_) => t
    case SubmitZip(_) => t
    case SubmitLoad(_, _, _, _) => t
    case Attempt(missing) =>
      (match s.jobs[s.q.worker.item.id]
       case Zip(keys) => t.(cache := s.cache + keys, evicted := s.evicted - keys, phase := Done)
       case Load(keys) => Got(s, t, keys, missing)
       case Again(keys, _) => Got(s, t, keys, missing)
       case Other => t.(phase := Done))
    case Resubmit =>
      if s.q.status.Running? then t.(phase := Done) else t.(fault := Some(QueueStopping))
    case Return => t.(phase := Fresh)
    case Evict(keys) => t.(cache := s.cache - keys, evicted := s.evicted + keys * s.cache)
    case Record(groups) =>
      t.(disk := s.disk.(recorded := s.disk.recorded + groups, persisted := s.disk.persisted - groups))
    case Persist(groups) => t.(disk := Persisted(s.disk, s.cache, groups))
    case RecordEvict(groups) => t.(disk := s.disk.(recorded := s.disk.recorded - (groups - s.disk.persisted)))
  }

  ghost predicate Step(s: State, e: Event, s': State) {
    |s.q.levels| == T.LEVELS && Enabled(s, e) && s' == After(s, e)
  }

  ghost predicate Run(ss: seq<State>, es: seq<Event>) {
    && |ss| == |es| + 1
    && ss[0] == Init(ss[0].disk)
    && forall i :: 0 <= i < |es| ==> Step(ss[i], es[i], ss[i + 1])
  }

  const Plain := T.Untagged(T.LOW, -1)

  ghost predicate QueueInv(q: Q.State) { Q.Counted(q) && Q.WorkerInv(q) && Q.Fifo(q, Plain) }

  /** Compress tasks and retries are untagged, unsorted tasks of the lowest level; a retry comes after its load. */
  ghost predicate JobsInv(s: State) {
    && |s.jobs| == |s.q.accepted|
    && (forall i :: 0 <= i < |s.jobs| && (s.jobs[i].Zip? || s.jobs[i].Again?) ==> T.Picks(Plain, s.q.accepted[i]))
    && (forall i :: 0 <= i < |s.jobs| && s.jobs[i].Again? ==> s.jobs[i].first < i)
  }

  predicate Available(s: State, keys: set<Key>) { keys <= s.cache + s.evicted }

  /** Compress task i has put its keys. */
  predicate HasPut(s: State, x: T.Item) {
    x in s.q.finished || (s.q.worker == Q.Busy(x) && s.phase.Done?)
  }

  ghost predicate PutsInv(s: State) {
    forall x :: HasPut(s, x) && x.id < |s.jobs| && s.jobs[x.id].Zip? ==> Available(s, s.jobs[x.id].keys)
  }

  /** Phases other than Fresh belong to a running task. */
  ghost predicate Inv(s: State) {
    QueueInv(s.q) && JobsInv(s) && PutsInv(s) && (s.phase.Fresh? || s.q.worker.Busy?) && s.cache !! s.evicted
  }

  lemma QueueStepKeeps(q: Q.State, e: Q.Event)
    requires QueueInv(q) && Q.Enabled(q, e)
    ensures QueueInv(Q.After(q, e))
  {
    Q.StepKeepsCounted(q, e);
    Q.StepKeepsWorker(q, e);
    Q.StepKeepsFifo(q, e, Plain);
  }

  /** A queue step that submits nothing leaves the accepted tasks alone. */
  lemma AcceptedAfter(q: Q.State, e: Q.Event)
    requires Q.WorkerInv(q) && Q.Enabled(q, e)
    ensures e.Submit? ==> Q.After(q, e).accepted == q.accepted + [T.Item(|q.accepted|, e.level, e.bundle, e.key)]
    ensures !e.Submit? ==> Q.After(q, e).accepted == q.accepted
    ensures !e.Finish? ==> Q.After(q, e).finished == q.finished
    ensures !e.Finish? && !e.Look? && q.worker.Busy? ==> Q.After(q, e).worker == q.worker
    ensures !q.worker.Busy? && Q.After(q, e).worker.Busy? ==> e.Look?
  {
  }

  lemma JobsKept(s: State, e: Event)
    requires Inv(s) && Enabled(s, e)
    ensures JobsInv(After(s, e))
  {
    var s' := After(s, e);
    var step := QueueStep(s, e);
    if step.Go? { AcceptedAfter(s.q, step.e); }
    if NewJob(s, e) != [] {
      NewJobFits(s, e);
      AppendJob(s, s', NewJob(s, e)[0]);
    } else {
      assert s'.jobs == s.jobs;
    }
  }

  lemma NewJobFits(s: State, e: Event)
    requires Inv(s) && Enabled(s, e) && NewJob(s, e) != []
    ensures var j, x := NewJob(s, e)[0], QueueStep(s, e).e;
            ((j.Zip? || j.Again?) ==> x == PlainLow) && (j.Again? ==> j.first < |s.jobs|)
  {
  }

  lemma AppendJob(s: State, s': State, j: Job)
    requires JobsInv(s) && s'.jobs == s.jobs + [j] && |s'.q.accepted| == |s.q.accepted| + 1
    requires s'.q.accepted[..|s.q.accepted|] == s.q.accepted
    requires (j.Zip? || j.Again?) ==> T.Picks(Plain, s'.q.accepted[|s.q.accepted|])
    requires j.Again? ==> j.first < |s.jobs|
    ensures JobsInv(s')
  {
    forall i | 0 <= i < |s.jobs| ensures s'.jobs[i] == s.jobs[i] && s'.q.accepted[i] == s.q.accepted[i] {
      assert s'.q.accepted[..|s.q.accepted|][i] == s.q.accepted[i];
    }
  }

  /** Tasks that had finished stay finished and were accepted, so their job is known. */
  lemma FinishedIsAccepted(q: Q.State, x: T.Item)
    requires Q.Counted(q) && Q.WorkerInv(q) && (x in q.finished || q.worker == Q.Busy(x))
    ensures x.id < |q.accepted| && q.accepted[x.id] == x
  {
    assert x in q.started;
    assert x in multiset(q.started);
    assert x in multiset(q.accepted);
  }

  /** Keys stay available: they leave the cache only by eviction. */
  lemma StaysAvailable(s: State, e: Event, keys: set<Key>)
    requires |s.q.levels| == T.LEVELS && Enabled(s, e) && Available(s, keys)
    ensures Available(After(s, e), keys)
  {
  }

  lemma PutBefore(s: State, e: Event, x: T.Item)
    requires Inv(s) && Enabled(s, e) && HasPut(After(s, e), x) && !HasPut(s, x)
    ensures e.Attempt? || e.Resubmit?
    ensures s.q.worker == Q.Busy(x) && After(s, e).phase.Done?
  {
    var step := QueueStep(s, e);
    if step.Go? { AcceptedAfter(s.q, step.e); }
  }

  lemma PutsKept(s: State, e: Event)
    requires Inv(s) && Enabled(s, e)
    ensures PutsInv(After(s, e))
  {
    var s' := After(s, e);
    JobsKept(s, e);
    forall x | HasPut(s', x) && x.id < |s'.jobs| && s'.jobs[x.id].Zip? ensures Available(s', s'.jobs[x.id].keys) {
      if HasPut(s, x) {
        FinishedIsAccepted(s.q, x);
        StaysAvailable(s, e, s.jobs[x.id].keys);
      } else {
        PutBefore(s, e, x);
        FinishedIsAccepted(s.q, x);
      }
    }
  }

  lemma PhaseKept(s: State, e: Event)
    requires Inv(s) && Enabled(s, e)
    ensures After(s, e).phase.Fresh? || After(s, e).q.worker.Busy?
  {
    var step := QueueStep(s, e);
    if step.Go? { AcceptedAfter(s.q, step.e); }
  }

  lemma QueueKept(s: State, e: Event)
    requires Inv(s) && Enabled(s, e)
    ensures QueueInv(AfterQ(s, e))
  {
    match QueueStep(s, e)
    case Stay => assert AfterQ(s, e) == s.q;
    case Go(qe) =>
      assert AfterQ(s, e) == Q.After(s.q, qe);
      QueueStepKeeps(s.q, qe);
  }

  lemma EvictedKept(s: State, e: Event)
    requires Inv(s) && Enabled(s, e)
    ensures After(s, e).cache !! After(s, e).evicted
  {
  }

  lemma StepKeeps(s: State, e: Event)
    requires Inv(s) && Enabled(s, e)
    ensures Inv(After(s, e))
  {
    QueueKept(s, e);
    EvictedKept(s, e);
    PhaseKept(s, e);
    JobsKept(s, e);
    PutsKept(s, e);
  }

  lemma {:induction false} RunsAreSafe(ss: seq<State>, es: seq<Event>, i: nat)
    requires Run(ss, es) && i < |ss|
    ensures Inv(ss[i])
  {
    if i > 0 {
      RunsAreSafe(ss, es, i - 1);
      assert Step(ss[i - 1], es[i - 1], ss[i]);
      StepKeeps(ss[i - 1], es[i - 1]);
    }
  }

  /** Key k was handed to a compress task enqueued before task `first`. */
  ghost predicate EnqueuedBefore(s: State, k: Key, first: nat) {
    exists z: nat :: z < |s.jobs| && s.jobs[z].Zip? && k in s.jobs[z].keys && z < first
  }

  /** Main result: when the retry of a load runs, a key whose compress task was enqueued before that load is in the cache
      exactly unless it was evicted after its last put or load; so get finds it exactly if it was not evicted since or is
      on disk. */
  lemma RetryFinds(ss: seq<State>, es: seq<Event>, i: nat, k: Key)
    requires Run(ss, es) && i < |ss| && ss[i].q.worker.Busy? && ss[i].q.worker.item.id < |ss[i].jobs|
    requires var j := ss[i].jobs[ss[i].q.worker.item.id];
             j.Again? && k in j.keys && EnqueuedBefore(ss[i], k, j.first)
    ensures k in ss[i].cache <==> k !in ss[i].evicted
    ensures k in ss[i].cache + Loadable(ss[i], {k}) <==> k !in ss[i].evicted || OnDisk(ss[i].disk, k)
  {
    var s := ss[i];
    RunsAreSafe(ss, es, i);
    var r := s.q.worker.item;
    FinishedIsAccepted(s.q, r);
    var z: nat :| z < |s.jobs| && s.jobs[z].Zip? && k in s.jobs[z].keys && z < s.jobs[r.id].first;
    var x := s.q.accepted[z];
    assert x in s.q.accepted && x.id == z && T.Picks(Plain, x) && T.Picks(Plain, r);
    Q.EarlierIsDoneHere(s.q, x, r);
    assert HasPut(s, x);
  }

  /** Evicted and not on disk: nothing can bring the key back but another put. */
  predicate Gone(s: State, k: Key) { k in s.evicted && !OnDisk(s.disk, k) }

  /** So a retry whose keys were all enqueued before the load succeeds exactly if each of them was not evicted since or is
      on disk; otherwise it aborts. */
  lemma RetrySucceeds(ss: seq<State>, es: seq<Event>, i: nat)
    requires Run(ss, es) && i < |es| && es[i].Attempt?
    requires ss[i].q.worker.Busy? && ss[i].q.worker.item.id < |ss[i].jobs|
    requires var j := ss[i].jobs[ss[i].q.worker.item.id];
             j.Again? && forall k :: k in j.keys ==> EnqueuedBefore(ss[i], k, j.first)
    ensures var j := ss[i].jobs[ss[i].q.worker.item.id];
            if forall k :: k in j.keys ==> !Gone(ss[i], k)
            then ss[i + 1].fault.None? && ss[i + 1].phase.Done? && j.keys <= ss[i + 1].cache && j.keys !! ss[i + 1].evicted
            else ss[i + 1].fault.Some?
  {
    var s := ss[i];
    assert Step(s, es[i], ss[i + 1]);
    var j := s.jobs[s.q.worker.item.id];
    forall k | k in j.keys ensures k in s.cache <==> k !in s.evicted { RetryFinds(ss, es, i, k); }
    if k :| k in j.keys && Gone(s, k) {
      assert k in Broken(s, j.keys) || k in Absent(s, j.keys);
    }
  }

  /** Only a new row takes a key off the disk: files stay, and rows marked persisted are never deleted. */
  lemma StaysOnDisk(s: State, e: Event, k: Key)
    requires |s.q.levels| == T.LEVELS && Enabled(s, e) && OnDisk(s.disk, k)
    ensures OnDisk(After(s, e).disk, k) <==> !(e.Record? && k.group in e.groups)
  {
  }

  lemma {:induction false} PersistedStays(ss: seq<State>, es: seq<Event>, a: nat, i: nat, k: Key)
    requires Run(ss, es) && a < i < |ss| && es[a].Persist? && k in ss[a].cache && L.ParseGroupKey(k.group).Some?
    requires k.group in es[a].groups && k.group in ss[a].disk.recorded
    requires forall b :: a < b < i && es[b].Record? ==> k.group !in es[b].groups
    ensures OnDisk(ss[i].disk, k)
  {
    assert Step(ss[i - 1], es[i - 1], ss[i]);
    if a < i - 1 {
      PersistedStays(ss, es, a, i - 1, k);
      StaysOnDisk(ss[i - 1], es[i - 1], k);
    }
  }

  /** Whatever is evicted, a retry succeeds when every key of it was enqueued before the load and either was not evicted
      since or was persisted with its row in the table and not recorded again. */
  lemma PersistedIsRetried(ss: seq<State>, es: seq<Event>, a: nat, i: nat)
    requires Run(ss, es) && a < i < |es| && es[i].Attempt? && es[a].Persist?
    requires ss[i].q.worker.Busy? && ss[i].q.worker.item.id < |ss[i].jobs|
    requires var j := ss[i].jobs[ss[i].q.worker.item.id];
             j.Again? && forall k :: k in j.keys ==> EnqueuedBefore(ss[i], k, j.first)
    requires forall k :: k in ss[i].jobs[ss[i].q.worker.item.id].keys && k in ss[i].evicted ==>
               && k in ss[a].cache && L.ParseGroupKey(k.group).Some? && k.group in es[a].groups * ss[a].disk.recorded
               && forall b :: a < b < i && es[b].Record? ==> k.group !in es[b].groups
    ensures ss[i + 1].fault.None? && ss[i + 1].phase.Done?
  {
    var j := ss[i].jobs[ss[i].q.worker.item.id];
    forall k | k in j.keys ensures !Gone(ss[i], k) {
      if k in ss[i].evicted { PersistedStays(ss, es, a, i, k); }
    }
    RetrySucceeds(ss, es, i);
  }

  /** Why a run aborts: a first attempt misses while the queue is shutting down, since the resubmission is then rejected; a
      retry misses a key that is gone or that no earlier compress task was to put; or a group's row says persisted and
      the file of one of its tensors was never written. */
  lemma OnlyTheseFaults(ss: seq<State>, es: seq<Event>, i: nat)
    requires Run(ss, es) && i < |es| && ss[i + 1].fault.Some?
    ensures ss[i].q.worker.Busy? && ss[i].q.worker.item.id < |ss[i].jobs|
    ensures var s, j := ss[i], ss[i].jobs[ss[i].q.worker.item.id];
            match ss[i + 1].fault.value
            case QueueStopping => j.Load? && s.q.status.Stopping?
            case RetryMissed(k) => j.Again? && k in j.keys && (Gone(s, k) || !EnqueuedBefore(s, k, j.first))
            case FileMissing(k) =>
              && (j.Load? || j.Again?) && k in j.keys && k !in s.cache && k.group in s.disk.persisted && !HasFile(s.disk, k)
              && (j.Again? ==> Gone(s, k) || !EnqueuedBefore(s, k, j.first))
  {
    var s := ss[i];
    assert Step(s, es[i], ss[i + 1]);
    RunsAreSafe(ss, es, i);
    var j := s.jobs[s.q.worker.item.id];
    match ss[i + 1].fault.value
    case QueueStopping =>
    case RetryMissed(k) => if EnqueuedBefore(s, k, j.first) { RetryFinds(ss, es, i, k); }
    case FileMissing(k) => if j.Again? && EnqueuedBefore(s, k, j.first) { RetryFinds(ss, es, i, k); }
  }

  // ---- what the steps of a task come to ----

  predicate Running(s: State) { s.q.worker.Busy? && s.q.worker.item.id < |s.jobs| }

  function JobOf(s: State): Job
    requires Running(s)
  {
    s.jobs[s.q.worker.item.id]
  }

  predicate Found(s: State, k: Key) { k in s.cache || OnDisk(s.disk, k) }

  /** A compress task puts all its keys. */
  lemma ZipPutsAll(ss: seq<State>, es: seq<Event>, i: nat)
    requires Run(ss, es) && i < |es| && es[i].Attempt? && Running(ss[i]) && (JobOf(ss[i]).Zip? || JobOf(ss[i]).Other?)
    ensures ss[i + 1].fault.None? && ss[i + 1].phase.Done? && (JobOf(ss[i]).Zip? ==> JobOf(ss[i]).keys <= ss[i + 1].cache)
  {
    assert Step(ss[i], es[i], ss[i + 1]);
  }

  /** A first attempt ends the load if every key is found, aborts on a file that should be there, and else counts as a
      miss. */
  lemma FirstAttempt(ss: seq<State>, es: seq<Event>, i: nat)
    requires Run(ss, es) && i < |es| && es[i].Attempt? && Running(ss[i]) && JobOf(ss[i]).Load?
    ensures var s, s', keys := ss[i], ss[i + 1], JobOf(ss[i]).keys;
            if forall k :: k in keys ==> Found(s, k) then s'.fault.None? && s'.phase.Done?
            else if forall k :: k in keys ==> Found(s, k) || k.group !in s.disk.persisted then s'.fault.None? && s'.phase.Missed?
            else s'.fault.Some? && s'.fault.value.FileMissing?
  {
    var s, keys := ss[i], JobOf(ss[i]).keys;
    assert Step(s, es[i], ss[i + 1]);
    if k :| k in keys && !Found(s, k) {
      assert k in Broken(s, keys) || k in Absent(s, keys);
    }
    if k :| k in keys && !Found(s, k) && k.group in s.disk.persisted {
      assert k in Broken(s, keys);
    }
  }

  /** What a get does to a key: if it does not abort, a key it asked for and found is cached, others are as they were. */
  lemma GetCaches(ss: seq<State>, es: seq<Event>, i: nat, k: Key)
    requires Run(ss, es) && i < |es| && es[i].Attempt? && Running(ss[i]) && (JobOf(ss[i]).Load? || JobOf(ss[i]).Again?)
    requires !(ss[i + 1].fault.Some? && ss[i + 1].fault.value.FileMissing?)
    ensures k in ss[i + 1].cache <==> k in ss[i].cache || (k in JobOf(ss[i]).keys && OnDisk(ss[i].disk, k))
    ensures ss[i + 1].disk == ss[i].disk
  {
    assert Step(ss[i], es[i], ss[i + 1]);
  }

  /** A missed load is resubmitted as a retry with the same keys, once, as an untagged task of the lowest level; when the
      queue does not run any more, the process aborts. */
  lemma MissIsResubmitted(ss: seq<State>, es: seq<Event>, i: nat)
    requires Run(ss, es) && i < |es| && es[i].Resubmit?
    ensures var s, s' := ss[i], ss[i + 1];
            && Running(s) && JobOf(s).Load?
            && (s.q.status.Running? ==>
                  && s'.fault.None? && s'.phase.Done? && s'.jobs == s.jobs + [Again(JobOf(s).keys, s.q.worker.item.id)]
                  && s'.q.accepted == s.q.accepted + [T.Item(|s.q.accepted|, 3, 0, -1)])
            && (!s.q.status.Running? ==> s'.fault == Some(QueueStopping) && s'.jobs == s.jobs)
  {
    RunsAreSafe(ss, es, i);
    assert Step(ss[i], es[i], ss[i + 1]);
    if ss[i].q.status.Running? { AcceptedAfter(ss[i].q, PlainLow); }
  }

  /** A running task can always go on: look for its keys, resubmit itself after a miss, or return. */
  lemma TaskProceeds(ss: seq<State>, es: seq<Event>, i: nat)
    requires Run(ss, es) && i < |ss| && ss[i].fault.None? && Running(ss[i])
    ensures ss[i].phase.Fresh? ==> exists k :: Enabled(ss[i], Attempt(k))
    ensures ss[i].phase.Missed? ==> Enabled(ss[i], Resubmit)
    ensures |ss[i].q.levels| == T.LEVELS
    ensures ss[i].phase.Done? ==>
              Enabled(ss[i], Return) && After(ss[i], Return).q.finished == ss[i].q.finished + [ss[i].q.worker.item] &&
              After(ss[i], Return).phase.Fresh?
  {
    var s := ss[i];
    RunsAreSafe(ss, es, i);
    if s.phase.Missed? { MissedIsLoad(ss, es, i); }
    var j := JobOf(s);
    if s.phase.Fresh? {
      if j.Load? || j.Again? {
        if Broken(s, j.keys) != {} {
          var k :| k in Broken(s, j.keys);
          assert Enabled(s, Attempt(k));
        } else if Absent(s, j.keys) != {} {
          var k :| k in Absent(s, j.keys);
          assert Enabled(s, Attempt(k));
        } else {
          assert Enabled(s, Attempt(Key("", "")));
        }
      } else {
        assert Enabled(s, Attempt(Key("", "")));
      }
    }
  }

  lemma {:induction false} MissedIsLoad(ss: seq<State>, es: seq<Event>, i: nat)
    requires Run(ss, es) && i < |ss| && Running(ss[i]) && ss[i].phase.Missed?
    ensures JobOf(ss[i]).Load?
  {
    var s, e := ss[i - 1], es[i - 1];
    assert Step(s, e, ss[i]);
    RunsAreSafe(ss, es, i - 1);
    if s.phase.Missed? {
      var step := QueueStep(s, e);
      if step.Go? { AcceptedAfter(s.q, step.e); }
      FinishedIsAccepted(s.q, s.q.worker.item);
      MissedIsLoad(ss, es, i - 1);
    }
  }

  // ---- the cache and the table between the steps ----

  /** This step puts or loads k. */
  predicate Brings(s: State, e: Event, k: Key) {
    e.Attempt? && Running(s) && !JobOf(s).Other? && k in JobOf(s).keys && (JobOf(s).Zip? || OnDisk(s.disk, k))
  }

  lemma OneKey(s: State, e: Event, k: Key)
    requires |s.q.levels| == T.LEVELS && Enabled(s, e) && After(s, e).fault.None?
    ensures k in After(s, e).cache <==> Brings(s, e, k) || (k in s.cache && !(e.Evict? && k in e.keys))
    ensures k in After(s, e).evicted <==>
              (k in s.evicted || (k in s.cache && e.Evict? && k in e.keys)) && !(Brings(s, e, k) && k !in s.cache) &&
              !(Brings(s, e, k) && JobOf(s).Zip?)
  {
  }

  /** A key that was put or loaded is cached until it is evicted ... */
  lemma {:induction false} CachedSince(ss: seq<State>, es: seq<Event>, p: nat, i: nat, k: Key)
    requires Run(ss, es) && p < i < |ss| && Brings(ss[p], es[p], k) && ss[i].fault.None?
    requires forall q :: p < q < i ==> !(es[q].Evict? && k in es[q].keys)
    ensures k in ss[i].cache && k !in ss[i].evicted
    decreases i
  {
    assert Step(ss[i - 1], es[i - 1], ss[i]);
    RunsAreSafe(ss, es, i);
    OneKey(ss[i - 1], es[i - 1], k);
    if p < i - 1 { CachedSince(ss, es, p, i - 1, k); }
  }

  /** ... and an evicted one is not until it is put or loaded again. */
  lemma {:induction false} EvictedSince(ss: seq<State>, es: seq<Event>, d: nat, i: nat, k: Key)
    requires Run(ss, es) && d < i < |ss| && es[d].Evict? && k in es[d].keys && k in ss[d].cache && ss[i].fault.None?
    requires forall q :: d < q < i ==> !Brings(ss[q], es[q], k)
    ensures k !in ss[i].cache && k in ss[i].evicted
    decreases i
  {
    assert Step(ss[i - 1], es[i - 1], ss[i]);
    OneKey(ss[i - 1], es[i - 1], k);
    if d < i - 1 { EvictedSince(ss, es, d, i - 1, k); }
  }

  /** A row is there from its submission until a decision deletes it, which happens only while it is not persisted. */
  lemma {:induction false} RecordedSince(ss: seq<State>, es: seq<Event>, p: nat, i: nat, g: string)
    requires Run(ss, es) && p < i < |ss| && es[p].Record? && g in es[p].groups
    requires forall q :: p < q < i ==> !(es[q].RecordEvict? && g in es[q].groups && g !in ss[q].disk.persisted)
    ensures g in ss[i].disk.recorded
    decreases i
  {
    assert Step(ss[i - 1], es[i - 1], ss[i]);
    if p < i - 1 { RecordedSince(ss, es, p, i - 1, g); }
  }

  lemma {:induction false} DeletedSince(ss: seq<State>, es: seq<Event>, d: nat, i: nat, g: string)
    requires Run(ss, es) && d < i < |ss| && es[d].RecordEvict? && g in es[d].groups && g !in ss[d].disk.persisted
    requires forall q :: d < q < i ==> !(es[q].Record? && g in es[q].groups)
    ensures g !in ss[i].disk.recorded && g !in ss[i].disk.persisted
    decreases i
  {
    assert Step(ss[i - 1], es[i - 1], ss[i]);
    if d < i - 1 { DeletedSince(ss, es, d, i - 1, g); }
  }
}
