/** The deletion guard of Mem (acquire_deletion_guard, wait_deletion_guard, evict_labels): readers hold pointers into the
    cache without its lock, and evicted buffers are freed by a background task that waits for the reader count to reach
    zero. Any number of readers and evictions interleave at the atomic actions of the code; the free tasks may also run
    in any order, although the code runs them one at a time. */
module DeletionGuard {
  type Key = string
  type Buf = nat

  /** Who owns a buffer: a cached group, the batch of groups one evict_labels call unlinked, or nobody since an
      overwriting put freed it. */
  datatype Where = InCache(key: Key) | InBatch(batch: nat) | Overwritten

  datatype Stage =
    | Unlinked   // out of the cache, free task not submitted yet
    | Waiting    // free task submitted, about to look at the guard count
    | Asleep     // saw a non-zero count and waits for a notification
    | Passed     // saw the count at zero
    | Freed

  datatype Reader =
    | Idle
    | Acquired                     // counted, no pointers yet
    | Holding(bufs: set<Buf>)      // uses the pointers it got
    | Notifying                    // brought the count to zero and has to notify

  datatype State = State(owner: map<Buf, Where>, batches: seq<Stage>, guardCount: int, readers: map<nat, Reader>)

  datatype Event =
    | Put(key: Key, buf: Buf)
    | Overwrite(old_: Buf, buf: Buf)
    | Acquire(reader: nat)
    | Get(reader: nat, keys: set<Key>)
    | Release(reader: nat)
    | Notify(reader: nat)
    | EvictLabels(keys: set<Key>)
    | SubmitFree(batch: nat)
    | Check(batch: nat)
    | Wake(batch: nat)
    | Free(batch: nat)

  predicate Active(r: Reader) { r.Acquired? || r.Holding? }

  function ActiveReaders(s: State): set<nat> { set r | r in s.readers && Active(s.readers[r]) }

  function Cached(s: State, keys: set<Key>): set<Buf> {
    set b | b in s.owner && s.owner[b].InCache? && s.owner[b].key in keys
  }

  /** The memory of buffer b was given back. */
  predicate IsFreed(s: State, b: Buf) {
    b in s.owner && match s.owner[b]
                    case InCache(_) => false
                    case InBatch(i) => i < |s.batches| && s.batches[i].Freed?
                    case Overwritten => true
  }

  predicate Enabled(s: State, e: Event) {
    match e
    case Put(_, buf) => buf !in s.owner
    // put_one_unlocked frees the old buffer at once; zip and unzip share one worker, so no reader is active then.
    case Overwrite(o, buf) => o in s.owner && s.owner[o].InCache? && buf !in s.owner && ActiveReaders(s) == {}
    case Acquire(r) => r in s.readers && s.readers[r].Idle?
    case Get(r, _) => r in s.readers && s.readers[r].Acquired?
    case Release(r) => r in s.readers && Active(s.readers[r])
    case Notify(r) => r in s.readers && s.readers[r].Notifying?
    case EvictLabels(_) => true
    case SubmitFree(i) => i < |s.batches| && s.batches[i].Unlinked?
    case Check(i) => i < |s.batches| && s.batches[i].Waiting?
    case Wake(i) => i < |s.batches| && s.batches[i].Asleep?
    case Free(i) => i < |s.batches| && s.batches[i].Passed?
  }

  function After(s: State, e: Event): State
    requires Enabled(s, e)
  {
    match e
    case Put(key, buf) => s.(owner := s.owner[buf := InCache(key)])
    case Overwrite(o, buf) => s.(owner := s.owner[buf := InCache(s.owner[o].key)][o := Overwritten])
    case Acquire(r) => s.(guardCount := s.guardCount + 1, readers := s.readers[r := Acquired])
    case Get(r, keys) => s.(readers := s.readers[r := Holding(Cached(s, keys))])
    case Release(r) =>
      s.(guardCount := s.guardCount - 1, readers := s.readers[r := if s.guardCount == 1 then Notifying else Idle])
    case Notify(r) => s.(readers := s.readers[r := Idle], batches := WakeAll(s.batches))
    case EvictLabels(keys) =>
      var n := |s.batches|;
      var gone := Cached(s, keys);
      s.(owner := map b | b in s.owner :: if b in gone then InBatch(n) else s.owner[b],
         batches := s.batches + [Unlinked])
    case SubmitFree(i) => s.(batches := s.batches[i := Waiting])
    case Check(i) => s.(batches := s.batches[i := if s.guardCount == 0 then Passed else Asleep])
    case Wake(i) => s.(batches := s.batches[i := Waiting])
    case Free(i) => s.(batches := s.batches[i := Freed])
  }

  /** notify_all */
  function WakeAll(batches: seq<Stage>): (r: seq<Stage>)
    ensures |r| == |batches|
  {
    seq(|batches|, i requires 0 <= i < |batches| => if batches[i].Asleep? then Waiting else batches[i])
  }

  predicate Init(s: State) {
    && s.batches == [] && s.guardCount == 0
    && (forall b :: b in s.owner ==> s.owner[b].InCache?)
    && (forall r :: r in s.readers ==> s.readers[r].Idle?)
  }

  /** Buffer b can still be held: it is cached, or its batch has not seen the guard at zero since it was unlinked. */
  predicate Protected(s: State, b: Buf) {
    b in s.owner && match s.owner[b]
                    case InCache(_) => true
                    case InBatch(i) => i < |s.batches| && !s.batches[i].Passed? && !s.batches[i].Freed?
                    case Overwritten => false
  }

  ghost predicate HeldAreProtected(s: State) {
    forall r, b :: r in s.readers && s.readers[r].Holding? && b in s.readers[r].bufs ==> Protected(s, b)
  }

  /** A sleeping free task with nobody left to wait for is about to be notified. */
  ghost predicate NoLostWakeup(s: State) {
    (exists i :: 0 <= i < |s.batches| && s.batches[i].Asleep?) && s.guardCount == 0 ==>
      exists r :: r in s.readers && s.readers[r].Notifying?
  }

  ghost predicate Inv(s: State) {
    && s.guardCount == |ActiveReaders(s)|
    && (forall b :: b in s.owner && s.owner[b].InBatch? ==> s.owner[b].batch < |s.batches|)
    && HeldAreProtected(s)
    && NoLostWakeup(s)
  }

  lemma ReaderChange(s: State, r: nat, x: Reader)
    requires r in s.readers
    ensures Active(x) ==> ActiveReaders(s.(readers := s.readers[r := x])) == ActiveReaders(s) + {r}
    ensures !Active(x) ==> ActiveReaders(s.(readers := s.readers[r := x])) == ActiveReaders(s) - {r}
  {
  }

  /** Nobody holds anything while the count is zero. */
  lemma ZeroMeansNoHolder(s: State, r: nat)
    requires s.guardCount == |ActiveReaders(s)| && s.guardCount == 0 && r in s.readers
    ensures !Active(s.readers[r])
  {
    assert ActiveReaders(s) == {};
    assert r !in ActiveReaders(s);
  }

  lemma PutKeeps(s: State, key: Key, buf: Buf)
    requires Inv(s) && Enabled(s, Put(key, buf))
    ensures Inv(After(s, Put(key, buf)))
  {
    var s' := After(s, Put(key, buf));
    assert ActiveReaders(s') == ActiveReaders(s);
    forall r, b | r in s'.readers && s'.readers[r].Holding? && b in s'.readers[r].bufs ensures Protected(s', b) {
      assert Protected(s, b);
    }
  }

  lemma OverwriteKeeps(s: State, o: Buf, buf: Buf)
    requires Inv(s) && Enabled(s, Overwrite(o, buf))
    ensures Inv(After(s, Overwrite(o, buf)))
  {
    var s' := After(s, Overwrite(o, buf));
    assert ActiveReaders(s') == ActiveReaders(s) == {};
    forall r | r in s.readers ensures !s.readers[r].Holding? {
      assert r !in ActiveReaders(s);
    }
  }

  /** A reader's own step leaves what the other readers hold protected. */
  lemma OthersKept(s: State, s': State, r: nat)
    requires HeldAreProtected(s) && r in s.readers && r in s'.readers
    requires s'.owner == s.owner && s'.readers == s.readers[r := s'.readers[r]] && |s'.batches| == |s.batches|
    requires forall i :: 0 <= i < |s.batches| ==>
               (s'.batches[i].Passed? <==> s.batches[i].Passed?) && (s'.batches[i].Freed? <==> s.batches[i].Freed?)
    requires s'.readers[r].Holding? ==> forall b :: b in s'.readers[r].bufs ==> b in s.owner && s.owner[b].InCache?
    ensures HeldAreProtected(s')
  {
    forall q, b | q in s'.readers && s'.readers[q].Holding? && b in s'.readers[q].bufs ensures Protected(s', b) {
      if q != r { assert Protected(s, b); }
    }
  }

  lemma AcquireKeeps(s: State, r: nat)
    requires Inv(s) && Enabled(s, Acquire(r))
    ensures Inv(After(s, Acquire(r)))
  {
    var s' := After(s, Acquire(r));
    ReaderChange(s, r, Acquired);
    assert ActiveReaders(s') == ActiveReaders(s) + {r} && r !in ActiveReaders(s);
    OthersKept(s, s', r);
  }

  lemma GetKeeps(s: State, r: nat, keys: set<Key>)
    requires Inv(s) && Enabled(s, Get(r, keys))
    ensures Inv(After(s, Get(r, keys)))
  {
    var s' := After(s, Get(r, keys));
    ReaderChange(s, r, Holding(Cached(s, keys)));
    assert ActiveReaders(s') == ActiveReaders(s) by { assert r in ActiveReaders(s); }
    assert forall q :: q in s.readers && s.readers[q].Notifying? ==> s'.readers[q].Notifying?;
    OthersKept(s, s', r);
  }

  lemma ReleaseKeeps(s: State, r: nat)
    requires Inv(s) && Enabled(s, Release(r))
    ensures Inv(After(s, Release(r)))
  {
    var s' := After(s, Release(r));
    assert r in ActiveReaders(s);
    ReaderChange(s, r, s'.readers[r]);
    assert ActiveReaders(s') == ActiveReaders(s) - {r};
    OthersKept(s, s', r);
    if s'.guardCount == 0 {
      assert s'.readers[r].Notifying?;
    }
  }

  lemma NotifyKeeps(s: State, r: nat)
    requires Inv(s) && Enabled(s, Notify(r))
    ensures Inv(After(s, Notify(r)))
  {
    var s' := After(s, Notify(r));
    ReaderChange(s, r, Idle);
    assert ActiveReaders(s') == ActiveReaders(s) by { assert r !in ActiveReaders(s); }
    assert forall i :: 0 <= i < |s'.batches| ==> !s'.batches[i].Asleep?;
    OthersKept(s, s', r);
  }

  /** Unlinking: what readers hold moves from the cache into a batch that has not passed the guard. */
  lemma EvictKeeps(s: State, keys: set<Key>)
    requires Inv(s)
    ensures Inv(After(s, EvictLabels(keys)))
  {
    var s' := After(s, EvictLabels(keys));
    assert ActiveReaders(s') == ActiveReaders(s);
    forall r, b | r in s'.readers && s'.readers[r].Holding? && b in s'.readers[r].bufs ensures Protected(s', b) {
      assert Protected(s, b);
    }
    if exists i :: 0 <= i < |s'.batches| && s'.batches[i].Asleep? {
      var i :| 0 <= i < |s'.batches| && s'.batches[i].Asleep?;
      assert s.batches[i].Asleep?;
    }
  }

  /** A free task's own step: it passes the guard only when nobody is active. */
  lemma BatchStepKeeps(s: State, e: Event)
    requires Inv(s) && Enabled(s, e) && (e.SubmitFree? || e.Check? || e.Wake? || e.Free?)
    ensures Inv(After(s, e))
  {
    var s' := After(s, e);
    assert ActiveReaders(s') == ActiveReaders(s);
    forall r, b | r in s'.readers && s'.readers[r].Holding? && b in s'.readers[r].bufs ensures Protected(s', b) {
      assert Protected(s, b);
      if s.guardCount == 0 { ZeroMeansNoHolder(s, r); }
    }
    if (exists i :: 0 <= i < |s'.batches| && s'.batches[i].Asleep?) && s'.guardCount == 0 {
      var i :| 0 <= i < |s'.batches| && s'.batches[i].Asleep?;
      assert s.batches[i].Asleep?;
    }
  }

  lemma StepKeeps(s: State, e: Event)
    requires Inv(s) && Enabled(s, e)
    ensures Inv(After(s, e))
  {
    match e
    case Put(key, buf) => PutKeeps(s, key, buf);
    case Overwrite(o, buf) => OverwriteKeeps(s, o, buf);
    case Acquire(r) => AcquireKeeps(s, r);
    case Get(r, keys) => GetKeeps(s, r, keys);
    case Release(r) => ReleaseKeeps(s, r);
    case Notify(r) => NotifyKeeps(s, r);
    case EvictLabels(keys) => EvictKeeps(s, keys);
    case SubmitFree(_) => BatchStepKeeps(s, e);
    case Check(_) => BatchStepKeeps(s, e);
    case Wake(_) => BatchStepKeeps(s, e);
    case Free(_) => BatchStepKeeps(s, e);
  }

  ghost predicate Run(ss: seq<State>, es: seq<Event>) {
    && |ss| == |es| + 1
    && Init(ss[0])
    && forall i :: 0 <= i < |es| ==> Step(ss[i], es[i], ss[i + 1])
  }

  ghost predicate Step(s: State, e: Event, s': State) { Enabled(s, e) && s' == After(s, e) }

  lemma {:induction false} RunsAreSafe(ss: seq<State>, es: seq<Event>, i: nat)
    requires Run(ss, es) && i < |ss|
    ensures Inv(ss[i])
  {
    if i == 0 {
      assert ActiveReaders(ss[0]) == {};
    } else {
      RunsAreSafe(ss, es, i - 1);
      assert Step(ss[i - 1], es[i - 1], ss[i]);
      StepKeeps(ss[i - 1], es[i - 1]);
    }
  }

  /** Main result: in every interleaving, whatever readers arrive while a free task waits, no buffer in the hands of
      an active guard holder has been freed. */
  lemma HeldIsNeverFreed(ss: seq<State>, es: seq<Event>, i: nat, r: nat, b: Buf)
    requires Run(ss, es) && i < |ss|
    requires r in ss[i].readers && ss[i].readers[r].Holding? && b in ss[i].readers[r].bufs
    ensures !IsFreed(ss[i], b)
  {
    RunsAreSafe(ss, es, i);
    assert Protected(ss[i], b);
  }

  /** Seen from the step that frees: at the moment batch j is freed, no active reader holds a buffer of it. */
  lemma FreeingHitsNoHolder(ss: seq<State>, es: seq<Event>, i: nat, r: nat, b: Buf)
    requires Run(ss, es) && i < |es| && es[i].Free?
    requires r in ss[i].readers && ss[i].readers[r].Holding? && b in ss[i].readers[r].bufs && b in ss[i].owner
    ensures ss[i].owner[b] != InBatch(es[i].batch)
  {
    RunsAreSafe(ss, es, i);
    assert Step(ss[i], es[i], ss[i + 1]);
    assert Protected(ss[i], b);
  }

  /** A free task never sleeps forever: with no active reader left, it is awake or a notification is on its way. */
  lemma WaitersAreWoken(ss: seq<State>, es: seq<Event>, i: nat, j: nat)
    requires Run(ss, es) && i < |ss| && j < |ss[i].batches| && ss[i].batches[j].Asleep?
    requires forall r :: r in ss[i].readers ==> !Active(ss[i].readers[r])
    ensures exists r :: r in ss[i].readers && ss[i].readers[r].Notifying?
  {
    RunsAreSafe(ss, es, i);
    assert ActiveReaders(ss[i]) == {};
  }

  // ---- what becomes of a buffer and of a reader ----

  /** A buffer stays under the key it was put to until that key is evicted or a put replaces the buffer. */
  lemma {:induction false} CachedSince(ss: seq<State>, es: seq<Event>, p: nat, i: nat, k: Key, b: Buf)
    requires Run(ss, es) && p < i < |ss|
    requires es[p] == Put(k, b) || (es[p].Overwrite? && es[p].buf == b && Cached(ss[p], {k}) == {es[p].old_})
    requires forall q :: p < q < i ==> !(es[q].EvictLabels? && k in es[q].keys) && !(es[q].Overwrite? && es[q].old_ == b)
    ensures b in ss[i].owner && ss[i].owner[b] == InCache(k)
    decreases i
  {
    assert Step(ss[i - 1], es[i - 1], ss[i]);
    if p < i - 1 {
      CachedSince(ss, es, p, i - 1, k, b);
    } else if es[p].Overwrite? {
      assert es[p].old_ in Cached(ss[p], {k});
    }
  }

  /** evict_labels hands exactly the buffers cached under its keys to its batch, for good. */
  lemma {:induction false} BatchHolds(ss: seq<State>, es: seq<Event>, d: nat, i: nat, b: Buf)
    requires Run(ss, es) && d < i < |ss| && es[d].EvictLabels?
    ensures |ss[d].batches| < |ss[i].batches|
    ensures b in ss[i].owner && ss[i].owner[b] == InBatch(|ss[d].batches|) <==>
              b in ss[d].owner && ss[d].owner[b].InCache? && ss[d].owner[b].key in es[d].keys
    decreases i
  {
    RunsAreSafe(ss, es, i - 1);
    assert Step(ss[i - 1], es[i - 1], ss[i]);
    if d < i - 1 {
      BatchHolds(ss, es, d, i - 1, b);
    } else {
      RunsAreSafe(ss, es, d);
    }
  }

  /** The free task of batch n ran in one of the steps d .. i. */
  ghost predicate FreedBetween(es: seq<Event>, d: nat, i: nat, n: nat) { exists f :: d < f < i && f < |es| && es[f] == Free(n) }

  lemma {:induction false} StageFreed(ss: seq<State>, es: seq<Event>, d: nat, i: nat)
    requires Run(ss, es) && d < i < |ss| && es[d].EvictLabels?
    ensures |ss[d].batches| < |ss[i].batches|
    ensures ss[i].batches[|ss[d].batches|].Freed? <==> FreedBetween(es, d, i, |ss[d].batches|)
    decreases i
  {
    assert Step(ss[i - 1], es[i - 1], ss[i]);
    if d < i - 1 {
      StageFreed(ss, es, d, i - 1);
      if es[i - 1] == Free(|ss[d].batches|) { assert FreedBetween(es, d, i, |ss[d].batches|); }
    }
  }

  /** An evicted buffer is given back exactly by the free task of its eviction. */
  lemma FreedExactlyByItsTask(ss: seq<State>, es: seq<Event>, d: nat, i: nat, b: Buf)
    requires Run(ss, es) && d < i < |ss| && es[d].EvictLabels?
    requires b in ss[d].owner && ss[d].owner[b].InCache? && ss[d].owner[b].key in es[d].keys
    ensures IsFreed(ss[i], b) <==> FreedBetween(es, d, i, |ss[d].batches|)
  {
    BatchHolds(ss, es, d, i, b);
    StageFreed(ss, es, d, i);
  }

  lemma {:induction false} OverwrittenIsFreed(ss: seq<State>, es: seq<Event>, d: nat, i: nat)
    requires Run(ss, es) && d < i < |ss| && es[d].Overwrite?
    ensures IsFreed(ss[i], es[d].old_) && es[d].old_ in ss[i].owner && ss[i].owner[es[d].old_].Overwritten?
    decreases i
  {
    assert Step(ss[i - 1], es[i - 1], ss[i]);
    if d < i - 1 { OverwrittenIsFreed(ss, es, d, i - 1); }
  }

  /** A reader holds exactly what was cached under its keys when it asked, until it releases the guard ... */
  lemma {:induction false} HoldsWhatItGot(ss: seq<State>, es: seq<Event>, g: nat, i: nat, b: Buf)
    requires Run(ss, es) && g < i < |ss| && es[g].Get? && forall q :: g < q < i ==> es[q] != Release(es[g].reader)
    ensures es[g].reader in ss[i].readers && ss[i].readers[es[g].reader].Holding?
    ensures b in ss[i].readers[es[g].reader].bufs <==>
              b in ss[g].owner && ss[g].owner[b].InCache? && ss[g].owner[b].key in es[g].keys
    decreases i
  {
    assert Step(ss[i - 1], es[i - 1], ss[i]);
    if g < i - 1 { HoldsWhatItGot(ss, es, g, i - 1, b); }
  }

  /** ... and is counted exactly from its acquire to its release. */
  lemma {:induction false} CountedWhileGuarding(ss: seq<State>, es: seq<Event>, a: nat, i: nat, r: nat)
    requires Run(ss, es) && a < i < |ss| && (es[a] == Acquire(r) || es[a] == Release(r))
    requires forall q :: a < q < i ==> es[q] != Acquire(r) && es[q] != Release(r)
    ensures r in ss[i].readers && (Active(ss[i].readers[r]) <==> es[a].Acquire?)
    decreases i
  {
    assert Step(ss[i - 1], es[i - 1], ss[i]);
    if a < i - 1 { CountedWhileGuarding(ss, es, a, i - 1, r); }
  }

  /** The last reader to leave, and no other, notifies; it is then idle again. */
  lemma LastReleaseNotifies(ss: seq<State>, es: seq<Event>, i: nat, r: nat)
    requires Run(ss, es) && i < |es| && r in ss[i].readers
    ensures es[i] == Release(r) ==> (ss[i + 1].readers[r].Notifying? <==> ActiveReaders(ss[i + 1]) == {})
    ensures es[i] == Release(r) && !ss[i + 1].readers[r].Notifying? ==> ss[i + 1].readers[r].Idle?
    ensures es[i] == Notify(r) ==> ss[i + 1].readers[r].Idle?
  {
    RunsAreSafe(ss, es, i + 1);
    assert Step(ss[i], es[i], ss[i + 1]);
  }

  /** How far a free task still has to go. */
  function ToGo(stage: Stage): nat {
    match stage
    case Unlinked => 4
    case Asleep => 3
    case Waiting => 2
    case Passed => 1
    case Freed => 0
  }

  /** Without active readers the memory of every evicted batch is given back: as long as it is not, a step is possible that
      takes its free task forward, and none takes it back. */
  lemma FreeProceeds(ss: seq<State>, es: seq<Event>, i: nat, j: nat)
    requires Run(ss, es) && i < |ss| && j < |ss[i].batches| && !ss[i].batches[j].Freed?
    requires forall r :: r in ss[i].readers ==> !Active(ss[i].readers[r])
    ensures exists e :: Enabled(ss[i], e) && |After(ss[i], e).batches| == |ss[i].batches| &&
                        ToGo(After(ss[i], e).batches[j]) < ToGo(ss[i].batches[j])
  {
    var s := ss[i];
    RunsAreSafe(ss, es, i);
    assert ActiveReaders(s) == {};
    match s.batches[j]
    case Unlinked => assert Enabled(s, SubmitFree(j));
    case Waiting => assert Enabled(s, Check(j));
    case Passed => assert Enabled(s, Free(j));
    case Asleep =>
      WaitersAreWoken(ss, es, i, j);
      var r :| r in s.readers && s.readers[r].Notifying?;
      assert Enabled(s, Notify(r)) && After(s, Notify(r)).batches[j].Waiting?;
    case Freed =>
  }

  lemma NoneGoesBack(s: State, e: Event, j: nat)
    requires Inv(s) && Enabled(s, e) && j < |s.batches| && ActiveReaders(s) == {}
    ensures j < |After(s, e).batches| && ToGo(After(s, e).batches[j]) <= ToGo(s.batches[j])
    ensures e.Notify? || e == Wake(j) ==> !After(s, e).batches[j].Asleep?
  {
  }
}
