/** dsa_memcpy_batch: thread tid of n handles the batches tid, tid + n, ... of a synchronous call, keeping up to DEPTH of
    them in flight in its own descriptor slots. Completions come in any order; a refused submission stops the thread from
    submitting more. */
module DsaBatch {
  import opened DsaTickets
  import Arith

  /** The call as one thread sees it; accepts and succeeds are what the hardware does with each batch. */
  datatype Job = Job(tid: nat, n: nat, nbatches: nat, accepts: int -> bool, succeeds: int -> bool)

  /** The variables of a thread: stacks of free and busy slots, the batch in each busy slot, the next batch, and what was
      submitted and waited for so far. */
  datatype Thread = Thread(free: seq<int>, busy: seq<int>, flying: seq<int>, next: int, submitted: seq<int>, done: seq<int>,
                           ok: bool, refused: bool)

  /** The c-th batch of the thread: tid, then n further each time. */
  function Nth(j: Job, c: nat): (b: int)
    ensures b >= j.tid
  {
    if c == 0 then j.tid else Nth(j, c - 1) + j.n
  }

  /** The first c batches of the thread. */
  function Stride(j: Job, c: nat): seq<int> { if c == 0 then [] else Stride(j, c - 1) + [Nth(j, c - 1)] }

  function Slots(): seq<int> { seq(DEPTH, i => i) }

  /** Free and busy slots together are the thread's slots, each once. */
  ghost predicate SlotsOk(t: Thread) { |t.flying| == |t.busy| && multiset(t.free) + multiset(t.busy) == multiset(Slots()) }

  ghost predicate Balanced(t: Thread) { multiset(t.submitted) == multiset(t.done) + multiset(t.flying) }

  ghost predicate AllGood(j: Job, bs: seq<int>) { forall b :: b in bs ==> j.succeeds(b) }

  ghost predicate Progress(j: Job, t: Thread, c: nat) {
    && t.submitted == Stride(j, c)
    && (if t.refused then t.next == j.nbatches && Nth(j, c) < j.nbatches && !j.accepts(Nth(j, c))
        else t.next == Nth(j, c))
    && (forall b :: b in t.submitted ==> 0 <= b < j.nbatches)
    && (t.ok <==> !t.refused && AllGood(j, t.done))
  }

  ghost predicate Ok(j: Job, t: Thread, c: nat) { SlotsOk(t) && Balanced(t) && Progress(j, t, c) }

  /** Put the next batch into the topmost free slot. */
  function Submitted(j: Job, t: Thread): Thread
    requires t.free != []
  {
    var slot := t.free[|t.free| - 1];
    if !j.accepts(t.next) then t.(ok := false, refused := true, next := j.nbatches)
    else
      t.(free := t.free[..|t.free| - 1], busy := t.busy + [slot], flying := t.flying + [t.next],
         submitted := t.submitted + [t.next], next := t.next + j.n)
  }

  function Cut(s: seq<int>, k: nat): seq<int>
    requires k < |s|
  {
    s[k := s[|s| - 1]][..|s| - 1]
  }

  /** The batch at position k has completed: its slot is free again. */
  function Completed(j: Job, t: Thread, k: nat): Thread
    requires k < |t.busy| == |t.flying|
  {
    t.(ok := t.ok && j.succeeds(t.flying[k]), done := t.done + [t.flying[k]], free := t.free + [t.busy[k]],
       busy := Cut(t.busy, k), flying := Cut(t.flying, k))
  }

  lemma CutIs(s: seq<int>, k: nat)
    requires k < |s|
    ensures multiset(s) == multiset(Cut(s, k)) + multiset{s[k]} && |Cut(s, k)| == |s| - 1
  {
    var last := |s| - 1;
    assert s == s[..last] + [s[last]];
    if k < last {
      assert s[..last] == s[..k] + [s[k]] + s[k + 1..last];
      assert Cut(s, k) == s[..k] + [s[last]] + s[k + 1..last];
    } else {
      assert Cut(s, k) == s[..last];
    }
  }

  lemma SubmitKeeps(j: Job, t: Thread, c: nat)
    requires Ok(j, t, c) && t.free != [] && t.next < j.nbatches
    ensures Ok(j, Submitted(j, t), if Submitted(j, t).refused then c else c + 1)
  {
    if j.accepts(t.next) {
      SubmitSlots(j, t);
      SubmitProgress(j, t, c);
    }
  }

  lemma SubmitSlots(j: Job, t: Thread)
    requires SlotsOk(t) && Balanced(t) && t.free != [] && j.accepts(t.next)
    ensures SlotsOk(Submitted(j, t)) && Balanced(Submitted(j, t))
  {
    PopPush(t.free, t.busy);
    AppendBag(t.submitted, t.done, t.flying, t.next);
  }

  lemma PopPush(free: seq<int>, busy: seq<int>)
    requires free != []
    ensures multiset(free[..|free| - 1]) + multiset(busy + [free[|free| - 1]]) == multiset(free) + multiset(busy)
  {
    assert free == free[..|free| - 1] + [free[|free| - 1]];
  }

  lemma AppendBag(a: seq<int>, b: seq<int>, c: seq<int>, x: int)
    requires multiset(a) == multiset(b) + multiset(c)
    ensures multiset(a + [x]) == multiset(b) + multiset(c + [x])
  {
  }

  lemma SubmitProgress(j: Job, t: Thread, c: nat)
    requires Progress(j, t, c) && t.free != [] && j.accepts(t.next) && t.next < j.nbatches
    ensures Progress(j, Submitted(j, t), c + 1)
  {
  }

  lemma CompleteKeeps(j: Job, t: Thread, c: nat, k: nat)
    requires Ok(j, t, c) && k < |t.busy|
    ensures Ok(j, Completed(j, t, k), c)
  {
    CutIs(t.busy, k);
    CutIs(t.flying, k);
    assert AllGood(j, t.done + [t.flying[k]]) <==> AllGood(j, t.done) && j.succeeds(t.flying[k]) by {
      assert forall b :: b in t.done + [t.flying[k]] <==> b in t.done || b == t.flying[k];
    }
  }

  /** The loop that fills the free slots. */
  method Fill(j: Job, t0: Thread, ghost c0: nat) returns (t: Thread, ghost c: nat)
    requires Ok(j, t0, c0) && j.n > 0
    ensures Ok(j, t, c) && t.done == t0.done && t.next >= t0.next
    ensures t.next == t0.next ==> t.busy == t0.busy
    ensures t.busy == [] ==> t.next >= j.nbatches
    ensures t0.next >= j.nbatches ==> t == t0
  {
    t, c := t0, c0;
    while t.free != [] && t.next < j.nbatches
      invariant Ok(j, t, c) && t.done == t0.done && t.next >= t0.next && (t.next == t0.next ==> t.busy == t0.busy)
      invariant t == t0 || t0.next < j.nbatches
      decreases j.nbatches - t.next
    {
      t, c := SubmitNext(j, t, c);
    }
    if t.busy == [] && t.next < j.nbatches { SomeSlot(t); }
  }

  /** A refused submission leaves the loops at once: no batch is left to submit. */
  method SubmitNext(j: Job, t0: Thread, ghost c0: nat) returns (t: Thread, ghost c: nat)
    requires Ok(j, t0, c0) && j.n > 0 && t0.free != [] && t0.next < j.nbatches
    ensures Ok(j, t, c) && t.done == t0.done && t.next > t0.next
  {
    SubmitKeeps(j, t0, c0);
    t := Submitted(j, t0);
    c := if t.refused then c0 else c0 + 1;
  }

  lemma SomeSlot(t: Thread)
    requires SlotsOk(t) && t.busy == []
    ensures t.free != []
  {
    assert |multiset(t.free) + multiset(t.busy)| == |multiset(Slots())|;
  }

  /** The whole thread: pick says which of the in-flight batches dsa_wait_any finds complete in each round. */
  method RunThread(j: Job, pick: nat -> nat) returns (t: Thread, ghost c: nat)
    requires j.n > 0
    ensures t.submitted == Stride(j, c) && multiset(t.done) == multiset(t.submitted)
    ensures forall b :: b in t.submitted ==> 0 <= b < j.nbatches
    ensures if t.refused then Nth(j, c) < j.nbatches && !j.accepts(Nth(j, c)) else Nth(j, c) >= j.nbatches
    ensures t.ok <==> !t.refused && AllGood(j, t.submitted)
  {
    t, c := Thread(Slots(), [], [], j.tid, [], [], true, false), 0;
    var round := 0;
    while t.next < j.nbatches || t.busy != []
      invariant Ok(j, t, c)
      decreases if t.next < j.nbatches then j.nbatches - t.next else 0, |t.busy|
    {
      t, c := Fill(j, t, c);
      if t.busy == [] { break; }
      t := WaitAny(j, t, c, pick(round));
      round := round + 1;
    }
    SameBag(j, t);
  }

  method WaitAny(j: Job, t0: Thread, ghost c: nat, found: nat) returns (t: Thread)
    requires Ok(j, t0, c) && t0.busy != []
    ensures Ok(j, t, c) && t.next == t0.next && |t.busy| == |t0.busy| - 1 && t.refused == t0.refused
  {
    var k := found % |t0.busy|;
    CompleteKeeps(j, t0, c, k);
    CutIs(t0.busy, k);
    t := Completed(j, t0, k);
  }

  lemma SameBag(j: Job, t: Thread)
    requires Balanced(t) && |t.flying| == 0
    ensures multiset(t.done) == multiset(t.submitted) && (AllGood(j, t.done) <==> AllGood(j, t.submitted))
  {
    assert t.flying == [];
    assert forall b :: b in t.done <==> b in multiset(t.done);
    assert forall b :: b in t.submitted <==> b in multiset(t.submitted);
  }

  // ---- all threads together ----

  lemma {:induction false} NthIs(j: Job, c: nat)
    requires j.tid < j.n
    ensures Nth(j, c) == c * j.n + j.tid && Nth(j, c) % j.n == j.tid
  {
    if c > 0 {
      NthIs(j, c - 1);
      Arith.MulStep(c - 1, j.n);
    }
    Arith.DivUnique(c * j.n + j.tid, j.n, c, j.tid);
  }

  /** Between two consecutive batches of a thread there is no other of its residue class. */
  lemma NoneBetween(j: Job, c: nat, b: int)
    requires j.tid < j.n && 0 <= b && b % j.n == j.tid && Nth(j, c) <= b < Nth(j, c) + j.n
    ensures b == Nth(j, c)
  {
    NthIs(j, c);
    var d := b - Nth(j, c);
    Arith.DivUnique(b, j.n, b / j.n, j.tid);
    if j.tid + d < j.n {
      Arith.DivUnique(b, j.n, c, j.tid + d);
    } else {
      Arith.MulStep(c, j.n);
      Arith.DivUnique(b, j.n, c + 1, j.tid + d - j.n);
    }
  }

  lemma BelowFirst(j: Job, b: int)
    requires j.tid < j.n && 0 <= b < j.tid
    ensures b % j.n != j.tid
  {
    Arith.ModSmall(b, j.n);
  }

  /** Without refusals a thread submits exactly the batches of its residue class, each once. */
  lemma {:induction false} StrideHas(j: Job, c: nat, b: int)
    requires j.tid < j.n && 0 <= b
    ensures multiset(Stride(j, c))[b] == if b % j.n == j.tid && b < Nth(j, c) then 1 else 0
  {
    if c == 0 {
      if b < j.tid { BelowFirst(j, b); }
    } else {
      StrideHas(j, c - 1, b);
      AppendCount(Stride(j, c - 1), Nth(j, c - 1), b);
      NextOfClass(j, c - 1, b);
    }
  }

  lemma AppendCount(s: seq<int>, x: int, b: int)
    ensures multiset(s + [x])[b] == multiset(s)[b] + if x == b then 1 else 0
  {
  }

  lemma NextOfClass(j: Job, c: nat, b: int)
    requires j.tid < j.n && 0 <= b
    ensures b == Nth(j, c) <==> b % j.n == j.tid && Nth(j, c) <= b < Nth(j, c + 1)
  {
    NthIs(j, c);
    if b % j.n == j.tid && Nth(j, c) <= b < Nth(j, c) + j.n { NoneBetween(j, c, b); }
  }

  /** Every entry is in exactly one batch, e / per, which exists. */
  lemma EntryBatch(count: nat, per: nat, e: nat, b: nat)
    requires per > 0 && e < count
    ensures e / per < (count + per - 1) / per
    ensures b * per <= e < b * per + per <==> b == e / per
  {
    var nb := (count + per - 1) / per;
    Arith.MulStep(nb, per);
    assert count + per - 1 == nb * per + (count + per - 1) % per;
    Arith.DivBelow(e, nb, per);
    if b * per <= e < b * per + per { Arith.DivUnique(e, per, b, e - b * per); }
  }
}
