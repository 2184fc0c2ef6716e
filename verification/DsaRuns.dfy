/** Every run of the asynchronous DSA interface: one submitter at a time (its caller holds a mutex), any number of
    waiters, and hardware completions at any moment. A section under g_async_mutex is one event; a completion that
    arrives while one scans the slots has the effect of arriving just before or just after it. */
module DsaRuns {
  import opened DsaTickets
  import Arith

  /** A batch handed to the hardware: entries first .. first + cnt of the call with this ticket, in descriptor slot
      `slot`; `done` is what the hardware has made of it. */
  datatype Batch = Batch(ticket: nat, slot: int, first: nat, cnt: nat, done: Status)

  datatype Submitter = Idle | Submitting(ticket: nat, count: nat, per: nat, done: nat, wq: nat)

  /** batches records every submission, owner[k] the latest one into slot k, calls the entry count of every call that
      returned its ticket. */
  datatype State = State(
    numWq: nat, maxBatch: nat, regs: Regs, lastTicket: nat, nextWq: nat, sub: Submitter,
    batches: seq<Batch>, owner: seq<int>, calls: map<nat, nat>)

  datatype Event =
    | Begin(count: nat)                    // dsa_memcpy_batch_async up to its loop
    | Try(accepted: bool)                  // the locked section of dsa_submit_slot
    | Complete(batch: nat, status: Status) // the hardware
    | Look(ticket: nat)                    // the locked section of dsa_memcpy_batch_wait

  ghost predicate Init(s: State) {
    && s.numWq > 0 && s.maxBatch > 0 && s.lastTicket == 0 && s.sub.Idle?
    && Sized(s.regs, s.numWq * DEPTH) && |s.owner| == s.numWq * DEPTH && s.regs.firstFailed == 0
    && (forall k :: 0 <= k < |s.regs.ticket| ==> s.regs.ticket[k] == 0)
    && s.batches == [] && s.calls == map[]
  }

  predicate Shape(s: State) {
    && s.numWq > 0 && s.maxBatch > 0
    && Sized(s.regs, s.numWq * DEPTH) && |s.owner| == s.numWq * DEPTH
    && (s.sub.Submitting? ==> s.sub.wq < s.numWq && s.sub.done < s.sub.count && 0 < s.sub.per <= s.maxBatch && s.sub.ticket > 0)
  }

  predicate Enabled(s: State, e: Event) {
    match e
    case Begin(count) => s.sub.Idle? && count > 0
    case Try(_) => s.sub.Submitting?
    case Complete(b, status) => b < |s.batches| && s.batches[b].done.Pending? && !status.Pending? &&
                                0 <= s.batches[b].slot < |s.regs.status|
    case Look(_) => true
  }

  function PerBatch(count: nat, numWq: nat, maxBatch: nat): nat
    requires numWq > 0
  {
    var even := (count + numWq - 1) / numWq;
    if even > maxBatch then maxBatch else even
  }

  /** The slot a Try fills, numWq * DEPTH when the work queue is full. */
  function TrySlot(s: State): int
    requires Shape(s) && s.sub.Submitting?
  {
    FirstFree(Harvest(s), s.sub.wq * DEPTH, s.sub.wq * DEPTH + DEPTH)
  }

  function Harvest(s: State): Regs
    requires Shape(s) && s.sub.Submitting?
  {
    ReapRange(s.regs, s.sub.wq * DEPTH, s.sub.wq * DEPTH + DEPTH)
  }

  predicate Full(s: State)
    requires Shape(s) && s.sub.Submitting?
  {
    TrySlot(s) == s.sub.wq * DEPTH + DEPTH
  }

  function BatchSize(u: Submitter): nat
    requires u.Submitting? && u.done < u.count
  {
    if u.count - u.done < u.per then u.count - u.done else u.per
  }

  function AfterTry(s: State, accepted: bool): State
    requires Shape(s) && s.sub.Submitting?
  {
    var r, slot, u := Harvest(s), TrySlot(s), s.sub;
    if Full(s) then s.(regs := r)
    else if !accepted then s.(regs := Filled(r, slot, u.ticket, false), sub := Idle)    // the call returns -1
    else
      var done := u.done + u.per;
      s.(regs := Filled(r, slot, u.ticket, true),
         batches := s.batches + [Batch(u.ticket, slot, u.done, BatchSize(u), Pending)],
         owner := s.owner[slot := |s.batches|],
         sub := if done < u.count then u.(done := done, wq := s.nextWq % s.numWq) else Idle,
         nextWq := if done < u.count then s.nextWq + 1 else s.nextWq,
         calls := if done < u.count then s.calls else s.calls[u.ticket := u.count])
  }

  function After(s: State, e: Event): State
    requires Shape(s) && Enabled(s, e)
  {
    match e
    case Begin(count) =>
      s.(lastTicket := s.lastTicket + 1, nextWq := s.nextWq + 1,
         sub := Submitting(s.lastTicket + 1, count, PerBatch(count, s.numWq, s.maxBatch), 0, s.nextWq % s.numWq))
    case Try(accepted) => AfterTry(s, accepted)
    case Complete(b, status) =>
      s.(batches := s.batches[b := s.batches[b].(done := status)],
         regs := s.regs.(status := s.regs.status[s.batches[b].slot := status]))
    case Look(t) => s.(regs := Find(s.regs, 0, t).regs)
  }

  ghost predicate Step(s: State, e: Event, s': State) { Shape(s) && Enabled(s, e) && s' == After(s, e) }

  ghost predicate Run(ss: seq<State>, es: seq<Event>) {
    && |ss| == |es| + 1
    && Init(ss[0])
    && forall i :: 0 <= i < |es| ==> Step(ss[i], es[i], ss[i + 1])
  }

  // ---- slots and batches ----

  ghost predicate Owned(r: Regs, owner: seq<int>, batches: seq<Batch>, k: int)
    requires 0 <= k < |r.ticket| == |r.status| == |owner|
  {
    && 0 <= owner[k] < |batches|
    && batches[owner[k]].slot == k && batches[owner[k]].ticket == r.ticket[k] && batches[owner[k]].done == r.status[k]
  }

  /** Batch i is still on its slot's books, or it has completed and a failure of it is on record. */
  ghost predicate Accounted(r: Regs, owner: seq<int>, batches: seq<Batch>, i: int)
    requires 0 <= i < |batches| && |r.ticket| == |r.status| == |owner|
  {
    var b := batches[i];
    && 0 <= b.slot < |owner| && b.ticket > 0
    && ((r.ticket[b.slot] != 0 && owner[b.slot] == i) || Reaped(r, b))
  }

  predicate Reaped(r: Regs, b: Batch) {
    !b.done.Pending? && (b.done.Failure? ==> 0 < r.firstFailed <= b.ticket)
  }

  ghost predicate FailureSeen(r: Regs, batches: seq<Batch>) {
    r.firstFailed != 0 ==> exists b :: b in batches && b.done.Failure? && b.ticket == r.firstFailed
  }

  ghost predicate Linked(r: Regs, owner: seq<int>, batches: seq<Batch>) {
    && |r.ticket| == |r.status| == |owner|
    && (forall k :: 0 <= k < |owner| && r.ticket[k] != 0 ==> Owned(r, owner, batches, k))
    && (forall i :: 0 <= i < |batches| ==> Accounted(r, owner, batches, i))
    && FailureSeen(r, batches)
  }

  lemma ReapKeeps(r: Regs, owner: seq<int>, batches: seq<Batch>, k: int)
    requires Linked(r, owner, batches) && 0 <= k < |owner|
    ensures Linked(Reap(r, k), owner, batches)
  {
    var r' := Reap(r, k);
    if r'.ticket != r.ticket {
      assert Owned(r, owner, batches, k);
      var b := batches[owner[k]];
      assert b in batches;
      forall j | 0 <= j < |owner| && r'.ticket[j] != 0 ensures Owned(r', owner, batches, j) {
        assert Owned(r, owner, batches, j);
      }
      forall i | 0 <= i < |batches| ensures Accounted(r', owner, batches, i) {
        assert Accounted(r, owner, batches, i);
      }
    }
  }

  lemma {:induction false} ReapRangeKeeps(r: Regs, owner: seq<int>, batches: seq<Batch>, lo: int, hi: int)
    requires Linked(r, owner, batches) && 0 <= lo <= hi <= |owner|
    ensures Linked(ReapRange(r, lo, hi), owner, batches)
    decreases hi - lo
  {
    if lo < hi {
      ReapKeeps(r, owner, batches, lo);
      ReapRangeKeeps(Reap(r, lo), owner, batches, lo + 1, hi);
    }
  }

  lemma {:induction false} FindKeeps(r: Regs, owner: seq<int>, batches: seq<Batch>, k: int, t: nat)
    requires Linked(r, owner, batches) && 0 <= k <= |owner|
    ensures Linked(Find(r, k, t).regs, owner, batches)
    decreases |owner| - k
  {
    if k + DEPTH <= |owner| {
      ReapRangeKeeps(r, owner, batches, k, k + DEPTH);
      FindKeeps(ReapRange(r, k, k + DEPTH), owner, batches, k + DEPTH, t);
    }
  }

  lemma FillKeeps(r: Regs, owner: seq<int>, batches: seq<Batch>, slot: int, b: Batch)
    requires Linked(r, owner, batches) && 0 <= slot < |owner| && r.ticket[slot] == 0
    requires b.slot == slot && b.ticket > 0 && b.done.Pending?
    ensures Linked(Filled(r, slot, b.ticket, true), owner[slot := |batches|], batches + [b])
  {
    var r', o', bs := Filled(r, slot, b.ticket, true), owner[slot := |batches|], batches + [b];
    forall j | 0 <= j < |o'| && r'.ticket[j] != 0 ensures Owned(r', o', bs, j) {
      if j != slot { assert Owned(r, owner, batches, j); }
    }
    forall i | 0 <= i < |bs| ensures Accounted(r', o', bs, i) {
      if i < |batches| { assert Accounted(r, owner, batches, i); }
    }
    forall x | x in batches ensures x in bs { }
  }

  /** A batch the hardware refused only resets the completion byte of a free slot. */
  lemma RefuseKeeps(r: Regs, owner: seq<int>, batches: seq<Batch>, slot: int, t: nat)
    requires Linked(r, owner, batches) && 0 <= slot < |owner| && r.ticket[slot] == 0
    ensures Linked(Filled(r, slot, t, false), owner, batches)
  {
    var r' := Filled(r, slot, t, false);
    forall j | 0 <= j < |owner| && r'.ticket[j] != 0 ensures Owned(r', owner, batches, j) {
      assert Owned(r, owner, batches, j);
    }
    forall i | 0 <= i < |batches| ensures Accounted(r', owner, batches, i) {
      assert Accounted(r, owner, batches, i);
    }
  }

  /** A batch that has not completed is on its slot's books, so its completion byte is read as its own. */
  lemma CompleteKeeps(r: Regs, owner: seq<int>, batches: seq<Batch>, i: int, status: Status)
    requires Linked(r, owner, batches) && 0 <= i < |batches| && batches[i].done.Pending? && !status.Pending?
    requires 0 <= batches[i].slot < |r.status|
    ensures Linked(r.(status := r.status[batches[i].slot := status]), owner, batches[i := batches[i].(done := status)])
  {
    var k := batches[i].slot;
    assert Accounted(r, owner, batches, i);
    var r', bs := r.(status := r.status[k := status]), batches[i := batches[i].(done := status)];
    forall j | 0 <= j < |owner| && r'.ticket[j] != 0 ensures Owned(r', owner, bs, j) {
      assert Owned(r, owner, batches, j);
    }
    forall j | 0 <= j < |bs| ensures Accounted(r', owner, bs, j) {
      assert Accounted(r, owner, batches, j);
    }
    if r.firstFailed != 0 {
      var b :| b in batches && b.done.Failure? && b.ticket == r.firstFailed;
      var j :| 0 <= j < |batches| && batches[j] == b;
      assert bs[j] == b;
    }
  }

  // ---- entries ----

  predicate In(b: Batch, t: nat, e: nat) { b.ticket == t && b.first <= e < b.first + b.cnt }

  /** Batches of one call cover consecutive ranges. */
  ghost predicate Ordered(batches: seq<Batch>) {
    forall i, j :: 0 <= i < j < |batches| && batches[i].ticket == batches[j].ticket ==>
                     batches[i].first + batches[i].cnt <= batches[j].first
  }

  ghost predicate Covers(batches: seq<Batch>, t: nat, n: nat) {
    && (forall e: nat {:trigger Held(batches, t, e)} :: e < n ==> Held(batches, t, e))
    && (forall i :: 0 <= i < |batches| && batches[i].ticket == t ==> batches[i].first + batches[i].cnt <= n)
  }

  ghost predicate Held(batches: seq<Batch>, t: nat, e: nat) { exists i :: 0 <= i < |batches| && In(batches[i], t, e) }

  ghost predicate Entries(s: State) {
    && Ordered(s.batches)
    && (forall i :: 0 <= i < |s.batches| ==> s.batches[i].ticket <= s.lastTicket && s.batches[i].cnt <= s.maxBatch)
    && (forall t :: t in s.calls ==> t <= s.lastTicket && Covers(s.batches, t, s.calls[t]))
    && (s.sub.Submitting? ==>
          s.sub.ticket == s.lastTicket && s.sub.ticket !in s.calls && Covers(s.batches, s.sub.ticket, s.sub.done))
  }

  ghost predicate Inv(s: State) { Shape(s) && Linked(s.regs, s.owner, s.batches) && Entries(s) }

  lemma CoversKept(batches: seq<Batch>, b: Batch, t: nat, n: nat)
    requires Covers(batches, t, n) && b.ticket != t
    ensures Covers(batches + [b], t, n)
  {
    forall e: nat | e < n ensures Held(batches + [b], t, e) {
      assert Held(batches, t, e);
      var i :| 0 <= i < |batches| && In(batches[i], t, e);
      assert In((batches + [b])[i], t, e);
    }
  }

  lemma CoversMore(batches: seq<Batch>, b: Batch, t: nat)
    requires Covers(batches, t, b.first) && b.ticket == t
    ensures Covers(batches + [b], t, b.first + b.cnt)
  {
    forall e: nat | e < b.first + b.cnt ensures Held(batches + [b], t, e) {
      if e < b.first {
        assert Held(batches, t, e);
        var i :| 0 <= i < |batches| && In(batches[i], t, e);
        assert In((batches + [b])[i], t, e);
      } else {
        assert In((batches + [b])[|batches|], t, e);
      }
    }
  }

  lemma CoversDone(batches: seq<Batch>, i: int, status: Status, t: nat, n: nat)
    requires Covers(batches, t, n) && 0 <= i < |batches|
    ensures Covers(batches[i := batches[i].(done := status)], t, n)
  {
    var bs := batches[i := batches[i].(done := status)];
    forall e: nat | e < n ensures Held(bs, t, e) {
      assert Held(batches, t, e);
      var j :| 0 <= j < |batches| && In(batches[j], t, e);
      assert In(bs[j], t, e);
    }
  }

  lemma NewTicket(s: State)
    requires Entries(s)
    ensures Covers(s.batches, s.lastTicket + 1, 0)
  {
  }

  lemma PerBatchFits(count: nat, numWq: nat, maxBatch: nat)
    requires count > 0 && numWq > 0 && maxBatch > 0
    ensures 0 < PerBatch(count, numWq, maxBatch) <= maxBatch
  {
    var x := count + numWq - 1;
    assert x == (x / numWq) * numWq + x % numWq;
    assert x / numWq == 0 ==> x < numWq;
  }

  lemma ModBelow(a: nat, n: nat)
    requires n > 0
    ensures 0 <= a % n < n
  {
  }

  lemma SubmitEntries(s: State)
    requires Inv(s) && s.sub.Submitting? && !Full(s)
    ensures Entries(AfterTry(s, true))
  {
    var u, s' := s.sub, AfterTry(s, true);
    var b := Batch(u.ticket, TrySlot(s), u.done, BatchSize(u), Pending);
    CoversMore(s.batches, b, u.ticket);
    forall t | t in s.calls ensures Covers(s'.batches, t, s.calls[t]) { CoversKept(s.batches, b, t, s.calls[t]); }
    if u.done + u.per < u.count {
      assert b.first + b.cnt == u.done + u.per;
    } else {
      assert b.first + b.cnt == u.count;
    }
  }

  lemma CompleteEntries(s: State, i: nat, status: Status)
    requires Inv(s) && Enabled(s, Complete(i, status))
    ensures Entries(After(s, Complete(i, status)))
  {
    var s' := After(s, Complete(i, status));
    forall t | t in s.calls ensures Covers(s'.batches, t, s.calls[t]) {
      CoversDone(s.batches, i, status, t, s.calls[t]);
    }
    if s.sub.Submitting? { CoversDone(s.batches, i, status, s.sub.ticket, s.sub.done); }
  }

  lemma HarvestKeeps(s: State)
    requires Inv(s) && s.sub.Submitting?
    ensures Linked(Harvest(s), s.owner, s.batches)
  {
    Arith.MulMono(s.sub.wq + 1, s.numWq, DEPTH);
    ReapRangeKeeps(s.regs, s.owner, s.batches, s.sub.wq * DEPTH, s.sub.wq * DEPTH + DEPTH);
  }

  lemma TryKeeps(s: State, accepted: bool)
    requires Inv(s) && s.sub.Submitting?
    ensures Inv(AfterTry(s, accepted))
  {
    HarvestKeeps(s);
    var u, r := s.sub, Harvest(s);
    if !Full(s) {
      var slot := TrySlot(s);
      if accepted {
        FillKeeps(r, s.owner, s.batches, slot, Batch(u.ticket, slot, u.done, BatchSize(u), Pending));
        SubmitEntries(s);
        ModBelow(s.nextWq, s.numWq);
      } else {
        RefuseKeeps(r, s.owner, s.batches, slot, u.ticket);
      }
    }
  }

  lemma BeginKeeps(s: State, count: nat)
    requires Inv(s) && Enabled(s, Begin(count))
    ensures Inv(After(s, Begin(count)))
  {
    PerBatchFits(count, s.numWq, s.maxBatch);
    ModBelow(s.nextWq, s.numWq);
    NewTicket(s);
  }

  lemma StepKeeps(s: State, e: Event)
    requires Inv(s) && Enabled(s, e)
    ensures Inv(After(s, e))
  {
    match e
    case Begin(count) => BeginKeeps(s, count);
    case Try(accepted) => TryKeeps(s, accepted);
    case Complete(i, status) =>
      CompleteKeeps(s.regs, s.owner, s.batches, i, status);
      CompleteEntries(s, i, status);
    case Look(t) => FindKeeps(s.regs, s.owner, s.batches, 0, t);
  }

  lemma {:induction false} RunsAreSafe(ss: seq<State>, es: seq<Event>, i: nat)
    requires Run(ss, es) && i < |ss|
    ensures Inv(ss[i])
  {
    if i > 0 {
      RunsAreSafe(ss, es, i - 1);
      assert Step(ss[i - 1], es[i - 1], ss[i]);
      StepKeeps(ss[i - 1], es[i - 1]);
    }
  }

  // ---- results ----

  /** A descriptor slot is refilled, or its completion byte reset, only after everything submitted into it before has
      completed. */
  lemma RefillOnlyAfterCompletion(ss: seq<State>, es: seq<Event>, i: nat, j: nat)
    requires Run(ss, es) && i < |es| && es[i].Try? && j < |ss[i].batches|
    requires Shape(ss[i]) && ss[i].sub.Submitting? && !Full(ss[i]) && ss[i].batches[j].slot == TrySlot(ss[i])
    ensures !ss[i].batches[j].done.Pending?
  {
    var s := ss[i];
    RunsAreSafe(ss, es, i);
    HarvestKeeps(s);
    assert Accounted(Harvest(s), s.owner, s.batches, j);
  }

  /** Every entry of a call that returned its ticket is in exactly one batch of that ticket, and no batch reaches
      beyond the call or exceeds the hardware's limit. */
  lemma EveryEntryOnce(ss: seq<State>, es: seq<Event>, i: nat, t: nat, e: nat)
    requires Run(ss, es) && i < |ss| && t in ss[i].calls && e < ss[i].calls[t]
    ensures exists j :: 0 <= j < |ss[i].batches| && In(ss[i].batches[j], t, e)
    ensures forall j, k :: 0 <= j < k < |ss[i].batches| ==> !(In(ss[i].batches[j], t, e) && In(ss[i].batches[k], t, e))
    ensures forall j :: 0 <= j < |ss[i].batches| && ss[i].batches[j].ticket == t ==>
                          ss[i].batches[j].first + ss[i].batches[j].cnt <= ss[i].calls[t] && ss[i].batches[j].cnt <= ss[i].maxBatch
  {
    RunsAreSafe(ss, es, i);
    assert Covers(ss[i].batches, t, ss[i].calls[t]);
    assert Held(ss[i].batches, t, e);
  }

  /** What dsa_memcpy_batch_wait returns once a look found nothing pending. */
  function Answer(r: Regs, t: nat): int { if r.firstFailed != 0 && r.firstFailed <= t then -1 else 0 }

  lemma {:induction false} ReapOnlyFrees(r: Regs, lo: int, hi: int, k: int)
    requires 0 <= lo <= hi <= |r.ticket| == |r.status| && 0 <= k < |r.ticket|
    ensures ReapRange(r, lo, hi).ticket[k] == r.ticket[k] || ReapRange(r, lo, hi).ticket[k] == 0
    decreases hi - lo
  {
    if lo < hi { ReapOnlyFrees(Reap(r, lo), lo + 1, hi, k); }
  }

  /** Nothing found: no slot from k on is in flight with a ticket up to t, and earlier slots stay as they were or are
      freed. */
  lemma {:induction false} FindSeesAll(r: Regs, k: int, t: nat, j: int)
    requires 0 <= k <= |r.ticket| == |r.status| && |r.ticket| % DEPTH == 0 && k % DEPTH == 0
    requires Find(r, k, t).found.Nothing? && 0 <= j < |r.ticket|
    requires j < k ==> r.ticket[j] == 0 || r.ticket[j] > t
    ensures Find(r, k, t).regs.ticket[j] == 0 || Find(r, k, t).regs.ticket[j] > t
    decreases |r.ticket| - k
  {
    if k + DEPTH <= |r.ticket| {
      var r' := ReapRange(r, k, k + DEPTH);
      ReapOnlyFrees(r, k, k + DEPTH, j);
      FindSeesAll(r', k + DEPTH, t, j);
    }
  }

  /** Main result: when a wait for ticket t returns, every batch submitted so far with a ticket up to t has completed;
      it returns 0 exactly if all of them succeeded and -1 exactly if one failed. */
  lemma WaitTellsTheTruth(ss: seq<State>, es: seq<Event>, i: nat)
    requires Run(ss, es) && i < |es| && es[i].Look?
    requires Shape(ss[i]) && Find(ss[i].regs, 0, es[i].ticket).found.Nothing?
    ensures var t, bs := es[i].ticket, ss[i].batches;
            && (forall j :: 0 <= j < |bs| && bs[j].ticket <= t ==> !bs[j].done.Pending?)
            && (Answer(ss[i + 1].regs, t) == 0 <==> forall j :: 0 <= j < |bs| && bs[j].ticket <= t ==> bs[j].done.Success?)
            && (Answer(ss[i + 1].regs, t) == -1 <==> exists j :: 0 <= j < |bs| && bs[j].ticket <= t && bs[j].done.Failure?)
  {
    var s, t := ss[i], es[i].ticket;
    RunsAreSafe(ss, es, i);
    assert Step(s, es[i], ss[i + 1]);
    var r := Find(s.regs, 0, t).regs;
    FindKeeps(s.regs, s.owner, s.batches, 0, t);
    forall j | 0 <= j < |s.batches| && s.batches[j].ticket <= t ensures Reaped(r, s.batches[j]) {
      SlotFreed(s, j, t);
    }
    if Answer(r, t) == -1 {
      var b :| b in s.batches && b.done.Failure? && b.ticket == r.firstFailed;
      var j :| 0 <= j < |s.batches| && s.batches[j] == b;
    }
  }

  lemma SlotFreed(s: State, j: int, t: nat)
    requires Inv(s) && 0 <= j < |s.batches| && s.batches[j].ticket <= t && Find(s.regs, 0, t).found.Nothing?
    ensures Reaped(Find(s.regs, 0, t).regs, s.batches[j])
  {
    var r := Find(s.regs, 0, t).regs;
    FindKeeps(s.regs, s.owner, s.batches, 0, t);
    assert Accounted(r, s.owner, s.batches, j);
    var k := s.batches[j].slot;
    FindSeesAll(s.regs, 0, t, k);
    if r.ticket[k] != 0 { assert Owned(r, s.owner, s.batches, k); }
  }

  /** For a call that returned, "so far" is all of it: a wait for its ticket that returns 0 has copied each of its
      entries. */
  lemma WaitCoversTheCall(ss: seq<State>, es: seq<Event>, i: nat, t: nat, e: nat)
    requires Run(ss, es) && i < |es| && es[i].Look? && t <= es[i].ticket
    requires Shape(ss[i]) && Find(ss[i].regs, 0, es[i].ticket).found.Nothing? && Answer(ss[i + 1].regs, es[i].ticket) == 0
    requires t in ss[i].calls && e < ss[i].calls[t]
    ensures exists j :: 0 <= j < |ss[i].batches| && In(ss[i].batches[j], t, e) && ss[i].batches[j].done.Success?
  {
    WaitTellsTheTruth(ss, es, i);
    EveryEntryOnce(ss, es, i, t, e);
  }

  // ---- how a call is cut and spread ----

  /** The batch size is the smallest that spreads the entries over all work queues, or the hardware's limit. */
  lemma PerBatchIs(count: nat, numWq: nat, maxBatch: nat)
    requires count > 0 && numWq > 0 && maxBatch > 0
    ensures var per := PerBatch(count, numWq, maxBatch);
            && 0 < per <= maxBatch && (per - 1) * numWq < count && (count <= per * numWq || per == maxBatch)
  {
    PerBatchFits(count, numWq, maxBatch);
    var even := (count + numWq - 1) / numWq;
    assert count + numWq - 1 == even * numWq + (count + numWq - 1) % numWq;
    assert (even - 1) * numWq == even * numWq - numWq;
    var per := PerBatch(count, numWq, maxBatch);
    Arith.MulMono(per - 1, even - 1, numWq);
  }

  lemma {:induction false} TicketsRise(ss: seq<State>, es: seq<Event>, p: nat, i: nat)
    requires Run(ss, es) && p < i < |ss| && es[p].Begin?
    ensures ss[p].lastTicket < ss[i].lastTicket
    decreases i
  {
    assert Step(ss[i - 1], es[i - 1], ss[i]);
    if p < i - 1 { TicketsRise(ss, es, p, i - 1); }
  }

  /** The submitter works on the call of step p. */
  ghost predicate WorksOn(s: State, p: State, count: nat) {
    s.sub.Submitting? && s.sub.ticket == p.lastTicket + 1 ==>
      p.numWq > 0 && s.sub.count == count && s.sub.per == PerBatch(count, p.numWq, p.maxBatch)
  }

  lemma {:induction false} SubmitterIs(ss: seq<State>, es: seq<Event>, p: nat, i: nat)
    requires Run(ss, es) && p < i < |ss| && es[p].Begin?
    ensures WorksOn(ss[i], ss[p], es[p].count)
    decreases i
  {
    assert Step(ss[i - 1], es[i - 1], ss[i]);
    if p < i - 1 {
      SubmitterIs(ss, es, p, i - 1);
      TicketsRise(ss, es, p, i - 1);
    }
  }

  ghost predicate CutFrom(b: Batch, p: State, count: nat) {
    b.ticket == p.lastTicket + 1 ==>
      p.numWq > 0 && b.first < count && b.cnt == Arith.Min(PerBatch(count, p.numWq, p.maxBatch), count - b.first)
  }

  /** Every batch of a call is full, except the one that ends it. With EveryEntryOnce this determines the cut. */
  lemma {:induction false} FullBatches(ss: seq<State>, es: seq<Event>, p: nat, i: nat, j: nat)
    requires Run(ss, es) && p < i < |ss| && es[p].Begin? && j < |ss[i].batches|
    ensures CutFrom(ss[i].batches[j], ss[p], es[p].count)
    decreases i
  {
    if p < i - 1 {
      SubmitterIs(ss, es, p, i - 1);
      if j < |ss[i - 1].batches| { FullBatches(ss, es, p, i - 1, j); }
      BatchStep(ss, es, i - 1, j);
    } else {
      OldTickets(ss, es, p, j);
    }
  }

  lemma OldTickets(ss: seq<State>, es: seq<Event>, p: nat, j: nat)
    requires Run(ss, es) && p < |es| && es[p].Begin? && j < |ss[p + 1].batches|
    ensures ss[p + 1].batches[j].ticket <= ss[p].lastTicket
  {
    RunsAreSafe(ss, es, p);
    assert Step(ss[p], es[p], ss[p + 1]);
  }

  /** A step keeps the ranges of the batches; a new one is the next of the call in progress. */
  lemma BatchStep(ss: seq<State>, es: seq<Event>, i: nat, j: nat)
    requires Run(ss, es) && i < |es| && j < |ss[i + 1].batches|
    ensures var b := ss[i + 1].batches[j];
            && (j < |ss[i].batches| ==> b == ss[i].batches[j].(done := b.done))
            && (j >= |ss[i].batches| ==>
                  && ss[i].sub.Submitting? && b.ticket == ss[i].sub.ticket && b.first == ss[i].sub.done < ss[i].sub.count
                  && b.cnt == Arith.Min(ss[i].sub.per, ss[i].sub.count - b.first)
                  && b.slot / DEPTH == ss[i].sub.wq)
  {
    var s := ss[i];
    RunsAreSafe(ss, es, i);
    assert Step(s, es[i], ss[i + 1]);
    if es[i].Try? && !Full(s) {
      Arith.MulMono(s.sub.wq + 1, s.numWq, DEPTH);
      var slot := TrySlot(s);
      assert s.sub.wq * DEPTH <= slot < s.sub.wq * DEPTH + DEPTH;
      assert slot / DEPTH == s.sub.wq;
    }
  }

  /** The work queues take their turns: each claim is of the next one, and there is one claim for every batch. */
  lemma {:induction false} QueuesInTurn(ss: seq<State>, es: seq<Event>, i: nat)
    requires Run(ss, es) && i < |ss| && ss[i].sub.Submitting?
    ensures ss[i].numWq > 0 && ss[i].nextWq > 0 && ss[i].sub.wq == (ss[i].nextWq - 1) % ss[i].numWq
  {
    RunsAreSafe(ss, es, i);
    RunsAreSafe(ss, es, i - 1);
    assert Step(ss[i - 1], es[i - 1], ss[i]);
    if ss[i - 1].sub.Submitting? { QueuesInTurn(ss, es, i - 1); }
  }

  lemma ClaimsPerBatch(ss: seq<State>, es: seq<Event>, i: nat)
    requires Run(ss, es) && i < |es|
    ensures ss[i + 1].nextWq == ss[i].nextWq +
              if es[i].Begin? || (|ss[i + 1].batches| > |ss[i].batches| && ss[i + 1].sub.Submitting?) then 1 else 0
  {
    assert Step(ss[i], es[i], ss[i + 1]);
  }

  /** A call goes on until every entry is in a batch, and then returns its ticket, or until a batch is refused. */
  lemma CallEndsExactlyWhen(ss: seq<State>, es: seq<Event>, i: nat)
    requires Run(ss, es) && i < |es| && ss[i].sub.Submitting?
    ensures var s, s', t, n := ss[i], ss[i + 1], ss[i].sub.ticket, ss[i].sub.count;
            && (s'.sub.Idle? <==> Fills(s, es[i], TrySlotOf(s)) && (!es[i].accepted || Covers(s'.batches, t, n)))
            && (t in s'.calls <==> s'.sub.Idle? && es[i].accepted) && (t in s'.calls ==> s'.calls[t] == n)
            && (s'.sub.Submitting? ==> s'.sub.ticket == t && s'.sub.count == n)
  {
    var s, s', t, n := ss[i], ss[i + 1], ss[i].sub.ticket, ss[i].sub.count;
    RunsAreSafe(ss, es, i);
    RunsAreSafe(ss, es, i + 1);
    assert Step(s, es[i], s');
    if s'.sub.Submitting? {
      assert s'.sub.ticket == t && s'.sub.count == n;
      NotCovered(s'.batches, t, s'.sub.done, n);
    } else {
      assert es[i].Try? && !Full(s);
      if es[i].accepted { assert t in s'.calls && Covers(s'.batches, t, n); }
    }
  }

  function TrySlotOf(s: State): int { if Shape(s) && s.sub.Submitting? then TrySlot(s) else 0 }

  lemma NotCovered(batches: seq<Batch>, t: nat, m: nat, n: nat)
    requires Covers(batches, t, m) && m < n
    ensures !Covers(batches, t, n)
  {
    assert Covers(batches, t, n) ==> Held(batches, t, m);
  }

  /** Every look at a work queue frees its finished slots. */
  lemma TryReaps(ss: seq<State>, es: seq<Event>, i: nat, k: int)
    requires Run(ss, es) && i < |es| && es[i].Try? && ss[i].sub.Submitting?
    requires ss[i].sub.wq * DEPTH <= k < ss[i].sub.wq * DEPTH + DEPTH
    ensures 0 <= k < |ss[i + 1].regs.ticket| == |ss[i + 1].regs.status|
    ensures ss[i + 1].regs.ticket[k] != 0 ==> ss[i + 1].regs.status[k].Pending?
  {
    var s := ss[i];
    RunsAreSafe(ss, es, i);
    assert Step(s, es[i], ss[i + 1]);
    Arith.MulMono(s.sub.wq + 1, s.numWq, DEPTH);
    ReapedAll(s.regs, s.sub.wq * DEPTH, s.sub.wq * DEPTH + DEPTH, k);
  }

  lemma {:induction false} ReapedAll(r: Regs, lo: int, hi: int, k: int)
    requires 0 <= lo <= hi <= |r.ticket| == |r.status| && 0 <= k < |r.ticket|
    requires k < lo ==> r.ticket[k] == 0 || r.status[k].Pending?
    ensures k < hi ==> ReapRange(r, lo, hi).ticket[k] == 0 || r.status[k].Pending?
    decreases hi - lo
  {
    if lo < hi { ReapedAll(Reap(r, lo), lo + 1, hi, k); }
  }

  // ---- polling ----

  /** The event writes the completion byte of slot k to zero, whether the hardware then takes the batch or not. */
  predicate Fills(s: State, e: Event, k: int) {
    e.Try? && Shape(s) && s.sub.Submitting? && !Full(s) && TrySlot(s) == k
  }

  /** The latest submission into slot k before step i was refused. */
  ghost predicate Refused(ss: seq<State>, es: seq<Event>, i: nat, k: int)
    requires i <= |es| < |ss|
  {
    i > 0 && if Fills(ss[i - 1], es[i - 1], k) then !es[i - 1].accepted else Refused(ss, es, i - 1, k)
  }

  ghost predicate Used(s: State, k: int) { exists i :: 0 <= i < |s.batches| && s.batches[i].slot == k }

  ghost predicate InFlight(s: State, k: int) {
    exists i :: 0 <= i < |s.batches| && s.batches[i].slot == k && s.batches[i].done.Pending?
  }

  /** What the completion byte of a used slot says: nothing after a refusal, otherwise the status of its latest batch. */
  ghost predicate Shows(s: State, k: int, refused: bool) {
    && 0 <= k < |s.regs.status| == |s.owner|
    && if refused then s.regs.status[k].Pending? && !InFlight(s, k)
       else Used(s, k) ==> 0 <= s.owner[k] < |s.batches| && s.batches[s.owner[k]].slot == k &&
                           s.regs.status[k] == s.batches[s.owner[k]].done
  }

  lemma TryShows(s: State, accepted: bool, k: int, refused: bool)
    requires Inv(s) && s.sub.Submitting? && Shows(s, k, refused)
    ensures Shows(AfterTry(s, accepted), k, if Fills(s, Try(accepted), k) then !accepted else refused)
  {
    var s' := AfterTry(s, accepted);
    HarvestKeeps(s);
    if Fills(s, Try(accepted), k) {
      forall j | 0 <= j < |s.batches| && s.batches[j].slot == k ensures !s.batches[j].done.Pending? {
        assert Accounted(Harvest(s), s.owner, s.batches, j);
      }
    } else if Used(s', k) {
      var j :| 0 <= j < |s'.batches| && s'.batches[j].slot == k;
      assert s.batches[j].slot == k;
    }
  }

  lemma CompleteShows(s: State, i: nat, status: Status, k: int, refused: bool)
    requires Inv(s) && Enabled(s, Complete(i, status)) && Shows(s, k, refused)
    ensures Shows(After(s, Complete(i, status)), k, refused)
  {
    var s' := After(s, Complete(i, status));
    assert Accounted(s.regs, s.owner, s.batches, i);
    if s.batches[i].slot == k {
      assert InFlight(s, k);
    }
    if Used(s', k) {
      var j :| 0 <= j < |s'.batches| && s'.batches[j].slot == k;
      assert s.batches[j].slot == k;
    }
  }

  lemma {:induction false} AlwaysShows(ss: seq<State>, es: seq<Event>, i: nat, k: int)
    requires Run(ss, es) && i < |ss| && 0 <= k < |ss[0].owner|
    ensures Shows(ss[i], k, Refused(ss, es, i, k))
  {
    if i > 0 {
      AlwaysShows(ss, es, i - 1, k);
      var s, e, f := ss[i - 1], es[i - 1], Refused(ss, es, i - 1, k);
      assert Step(s, e, ss[i]);
      RunsAreSafe(ss, es, i - 1);
      match e
      case Try(accepted) => TryShows(s, accepted, k, f);
      case Complete(b, status) => CompleteShows(s, b, status, k, f);
      case _ => SameShows(s, ss[i], k, f);
    }
  }

  lemma SameShows(s: State, s': State, k: int, refused: bool)
    requires Shows(s, k, refused) && s'.batches == s.batches && s'.owner == s.owner && s'.regs.status == s.regs.status
    ensures Shows(s', k, refused)
  {
  }

  lemma {:induction false} StaysUsed(ss: seq<State>, es: seq<Event>, m: nat, i: nat, k: int)
    requires Run(ss, es) && m <= i < |ss| && Used(ss[m], k)
    ensures Used(ss[i], k)
    decreases i
  {
    if m < i {
      StaysUsed(ss, es, m, i - 1, k);
      var s := ss[i - 1];
      assert Step(s, es[i - 1], ss[i]);
      var j :| 0 <= j < |s.batches| && s.batches[j].slot == k;
      assert ss[i].batches[j].slot == k;
    }
  }

  lemma FoundIsUsed(s: State, t: nat)
    requires Inv(s) && Find(s.regs, 0, t).found.Slot?
    ensures 0 <= Find(s.regs, 0, t).found.slot < |s.owner| && Used(s, Find(s.regs, 0, t).found.slot)
  {
    var r, k := Find(s.regs, 0, t).regs, Find(s.regs, 0, t).found.slot;
    FindKeeps(s.regs, s.owner, s.batches, 0, t);
    FoundHasTicket(s.regs, 0, t);
    assert Owned(r, s.owner, s.batches, k);
  }

  lemma {:induction false} FoundHasTicket(r: Regs, k: int, t: nat)
    requires 0 <= k <= |r.ticket| == |r.status| && Find(r, k, t).found.Slot?
    ensures 0 <= Find(r, k, t).found.slot < |r.ticket| && Find(r, k, t).regs.ticket[Find(r, k, t).found.slot] != 0
    decreases |r.ticket| - k
  {
    var r' := ReapRange(r, k, k + DEPTH);
    if FirstPending(r', k, k + DEPTH, t).Nothing? { FoundHasTicket(r', k + DEPTH, t); }
  }

  /** A waiter polls, outside the lock, the slot its look at step m found. At any later moment that slot has a status to
      see or a batch in flight exactly unless the latest submission into it was refused: then the byte was reset and nothing
      will write it until another batch is submitted there. */
  lemma PollEndsExactlyUnlessRefused(ss: seq<State>, es: seq<Event>, m: nat, i: nat)
    requires Run(ss, es) && m < i < |ss| && es[m].Look?
    requires Shape(ss[m]) && Find(ss[m].regs, 0, es[m].ticket).found.Slot?
    ensures var k := Find(ss[m].regs, 0, es[m].ticket).found.slot;
            && 0 <= k < |ss[i].regs.status|
            && (!ss[i].regs.status[k].Pending? || InFlight(ss[i], k) <==> !Refused(ss, es, i, k))
  {
    var k := Find(ss[m].regs, 0, es[m].ticket).found.slot;
    RunsAreSafe(ss, es, m);
    FoundIsUsed(ss[m], es[m].ticket);
    StaysUsed(ss, es, m, i, k);
    SameSlots(ss, es, m);
    AlwaysShows(ss, es, i, k);
  }

  lemma {:induction false} SameSlots(ss: seq<State>, es: seq<Event>, i: nat)
    requires Run(ss, es) && i < |ss|
    ensures |ss[i].owner| == |ss[0].owner|
  {
    if i > 0 {
      SameSlots(ss, es, i - 1);
      assert Step(ss[i - 1], es[i - 1], ss[i]);
    }
  }

  /** The slots of one work queue with two free or busy slots, as the sections below see them. */
  lemma TwoSlots(r: Regs)
    requires |r.ticket| == |r.status| == 2
    ensures ReapRange(r, 0, 2) == Reap(Reap(r, 0), 1)
    ensures r.ticket[0] == 0 ==> FirstFree(r, 0, 2) == 0
    ensures 0 < r.ticket[0] <= 1 && r.status[0].Pending? ==> FirstPending(Reap(Reap(r, 0), 1), 0, 2, 1) == Slot(0)
  {
    assert ReapRange(Reap(r, 0), 1, 2) == ReapRange(Reap(Reap(r, 0), 1), 2, 2);
  }

  // ---- a run on one work queue with calls of one entry ----

  const Sent := Batch(1, 0, 0, 1, Pending)
  const Sending := Submitting(1, 1, 1, 0, 0)

  /** Slot 0 with this ticket and status, after `last` calls. */
  function One(ticket: nat, status: Status, last: nat, sub: Submitter, batches: seq<Batch>): State {
    State(1, 1, Regs([ticket, 0], [status, Pending], 0), last, last, sub, batches, [0, 0],
          if batches == [] then map[] else map[1 := 1])
  }

  lemma OneBegins(s: State)
    requires |s.regs.ticket| == |s.regs.status| == 2
    requires s == One(s.regs.ticket[0], s.regs.status[0], s.lastTicket, Idle, s.batches)
    ensures var n := s.lastTicket + 1;
            Step(s, Begin(1), s.(lastTicket := n, nextWq := n, sub := Sending.(ticket := n)))
  {
    assert PerBatch(1, 1, 1) == 1;
  }

  lemma OneSubmits()
    ensures Step(One(0, Pending, 1, Sending, []), Try(true), One(1, Pending, 1, Idle, [Sent]))
  {
    var s := One(0, Pending, 1, Sending, []);
    TwoSlots(s.regs);
    assert Harvest(s) == s.regs && TrySlot(s) == 0;
    assert s.regs.ticket[0 := 1] == [1, 0] && s.regs.status[0 := Pending] == s.regs.status && s.owner[0 := 0] == s.owner;
    assert s.calls[1 := 1] == map[1 := 1];
  }

  lemma OneIsFound()
    ensures Find(One(1, Pending, 1, Idle, [Sent]).regs, 0, 1) == Search(One(1, Pending, 1, Idle, [Sent]).regs, Slot(0))
  {
    var r := One(1, Pending, 1, Idle, [Sent]).regs;
    TwoSlots(r);
    assert Reap(Reap(r, 0), 1) == r;
  }

  lemma OneCompletes()
    ensures Step(One(1, Pending, 1, Idle, [Sent]), Complete(0, Success), One(1, Success, 1, Idle, [Sent.(done := Success)]))
  {
    var s := One(1, Pending, 1, Idle, [Sent]);
    assert s.batches[0 := Sent.(done := Success)] == [Sent.(done := Success)];
    assert s.regs.status[0 := Success] == [Success, Pending];
  }

  lemma OneIsRefused(bs: seq<Batch>)
    requires bs != []
    ensures Step(One(1, Success, 2, Sending.(ticket := 2), bs), Try(false), One(0, Pending, 2, Idle, bs))
  {
    var s := One(1, Success, 2, Sending.(ticket := 2), bs);
    var r := Regs([0, 0], [Success, Pending], 0);
    TwoSlots(s.regs);
    assert Reap(s.regs, 0) == r && Reap(r, 1) == r;
    assert Harvest(s) == r;
    TwoSlots(r);
    assert TrySlot(s) == 0 && r.status[0 := Pending] == [Pending, Pending];
  }

  /** A batch is submitted, a waiter finds its slot, the batch completes, and the next submission, which frees the slot and
      resets its byte, is refused: the waiter sees no status, and nothing is in flight. */
  lemma RefusedPollSeesNothing() returns (ss: seq<State>, es: seq<Event>)
    ensures Run(ss, es) && |es| == 6 && es[2] == Look(1) && Shape(ss[2]) && Find(ss[2].regs, 0, 1).found == Slot(0)
    ensures ss[6] == One(0, Pending, 2, Idle, [Sent.(done := Success)]) && !InFlight(ss[6], 0)
  {
    var s0, s1, s2 := One(0, Pending, 0, Idle, []), One(0, Pending, 1, Sending, []), One(1, Pending, 1, Idle, [Sent]);
    var done := [Sent.(done := Success)];
    var s4, s5 := One(1, Success, 1, Idle, done), One(1, Success, 2, Sending.(ticket := 2), done);
    var s6 := One(0, Pending, 2, Idle, done);
    OneBegins(s0);
    OneSubmits();
    OneIsFound();
    OneCompletes();
    OneBegins(s4);
    OneIsRefused(done);
    ss, es := [s0, s1, s2, s2, s4, s5, s6], [Begin(1), Try(true), Look(1), Complete(0, Success), Begin(1), Try(false)];
  }
}
