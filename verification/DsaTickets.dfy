/** The asynchronous batches of dsa_memcpy.c: two descriptor slots per work queue, a ticket per call, and the sections
    of code that run under g_async_mutex. Slot w * DEPTH + i is slot i of work queue w. */
module DsaTickets {
  const DEPTH := 2

  /** The completion byte of a slot: zero, DSA_COMP_SUCCESS or anything else. */
  datatype Status = Pending | Success | Failure

  datatype Found = Nothing | Slot(slot: int)

  /** The globals: ticket[k] == 0 means that slot k is free; firstFailed == 0 that no failure was recorded. */
  datatype Regs = Regs(ticket: seq<nat>, status: seq<Status>, firstFailed: nat)

  predicate Sized(r: Regs, slots: int) { |r.ticket| == |r.status| == slots }

  // ---- what the sections do ----

  /** The body of dsa_reap_done for one slot. */
  function Reap(r: Regs, k: int): (r': Regs)
    requires 0 <= k < |r.ticket| == |r.status|
    ensures Sized(r', |r.ticket|) && r'.status == r.status
  {
    if r.ticket[k] == 0 || r.status[k].Pending? then r
    else
      Regs(r.ticket[k := 0], r.status,
           if r.status[k].Failure? && (r.firstFailed == 0 || r.ticket[k] < r.firstFailed) then r.ticket[k]
           else r.firstFailed)
  }

  function ReapRange(r: Regs, lo: int, hi: int): (r': Regs)
    requires 0 <= lo <= hi <= |r.ticket| == |r.status|
    ensures Sized(r', |r.ticket|) && r'.status == r.status
    decreases hi - lo
  {
    if lo == hi then r else ReapRange(Reap(r, lo), lo + 1, hi)
  }

  /** The first slot in lo .. hi that is in flight with a ticket up to t. */
  function FirstPending(r: Regs, lo: int, hi: int, t: nat): (f: Found)
    requires 0 <= lo <= hi <= |r.ticket|
    ensures f.Slot? ==> lo <= f.slot < hi && 0 < r.ticket[f.slot] <= t
    ensures f.Nothing? ==> forall k :: lo <= k < hi ==> r.ticket[k] == 0 || r.ticket[k] > t
    decreases hi - lo
  {
    if lo == hi then Nothing
    else if r.ticket[lo] != 0 && r.ticket[lo] <= t then Slot(lo)
    else FirstPending(r, lo + 1, hi, t)
  }

  datatype Search = Search(regs: Regs, found: Found)

  /** dsa_find_pending from slot k (the first slot of a work queue) on. */
  function Find(r: Regs, k: int, t: nat): (s: Search)
    requires 0 <= k <= |r.ticket| == |r.status|
    ensures Sized(s.regs, |r.ticket|) && s.regs.status == r.status
    decreases |r.ticket| - k
  {
    if k + DEPTH > |r.ticket| then Search(r, Nothing)
    else
      var r' := ReapRange(r, k, k + DEPTH);
      var f := FirstPending(r', k, k + DEPTH, t);
      if f.Slot? then Search(r', f) else Find(r', k + DEPTH, t)
  }

  /** The first free slot in lo .. hi, hi when there is none. */
  function FirstFree(r: Regs, lo: int, hi: int): (k: int)
    requires 0 <= lo <= hi <= |r.ticket|
    ensures lo <= k <= hi && (k < hi ==> r.ticket[k] == 0)
    ensures forall j :: lo <= j < k ==> r.ticket[j] != 0
    decreases hi - lo
  {
    if lo == hi || r.ticket[lo] == 0 then lo else FirstFree(r, lo + 1, hi)
  }

  // ---- the code ----

  class Engine {
    var ticket: seq<nat>
    var status: seq<Status>
    var firstFailed: nat
    const numWq: nat

    ghost predicate Valid()
      reads this
    {
      Sized(Value(), numWq * DEPTH)
    }

    ghost function Value(): Regs
      reads this
    {
      Regs(ticket, status, firstFailed)
    }

    constructor (numWq: nat)
      ensures Valid() && this.numWq == numWq && firstFailed == 0
      ensures forall k :: 0 <= k < |ticket| ==> ticket[k] == 0
    {
      this.numWq := numWq;
      ticket := seq(numWq * DEPTH, _ => 0);
      status := seq(numWq * DEPTH, _ => Pending);
      firstFailed := 0;
    }

    method ReapDone(w: nat)
      requires Valid() && w < numWq
      modifies this
      ensures Valid() && Value() == ReapRange(old(Value()), w * DEPTH, w * DEPTH + DEPTH)
    {
      var slot, end := w * DEPTH, w * DEPTH + DEPTH;
      while slot < end
        invariant w * DEPTH <= slot <= end && Valid()
        invariant ReapRange(old(Value()), w * DEPTH, end) == ReapRange(Value(), slot, end)
      {
        ghost var before := Value();
        if ticket[slot] != 0 && !status[slot].Pending? {
          if status[slot].Failure? && (firstFailed == 0 || ticket[slot] < firstFailed) {
            firstFailed := ticket[slot];
          }
          ticket := ticket[slot := 0];
        }
        assert Value() == Reap(before, slot);
        slot := slot + 1;
      }
    }

    /** Returns the slot whose completion the caller polls next. */
    method FindPending(t: nat) returns (found: Found)
      requires Valid()
      modifies this
      ensures Valid() && Search(Value(), found) == Find(old(Value()), 0, t)
    {
      var w := 0;
      while w < numWq
        invariant 0 <= w <= numWq && Valid()
        invariant Find(old(Value()), 0, t) == Find(Value(), w * DEPTH, t)
      {
        ReapDone(w);
        var slot, end := w * DEPTH, w * DEPTH + DEPTH;
        while slot < end
          invariant w * DEPTH <= slot <= end
          invariant FirstPending(Value(), w * DEPTH, end, t) == FirstPending(Value(), slot, end, t)
        {
          if ticket[slot] != 0 && ticket[slot] <= t { return Slot(slot); }
          slot := slot + 1;
        }
        w := w + 1;
      }
      return Nothing;
    }

    /** The locked section of dsa_submit_slot: full, or the slot that was filled (accepted tells whether the hardware
        took the batch). */
    method SubmitSlot(w: nat, t: nat, accepted: bool) returns (slot: int)
      requires Valid() && w < numWq && t > 0
      modifies this
      ensures Valid()
      ensures var r := ReapRange(old(Value()), w * DEPTH, w * DEPTH + DEPTH);
              && slot == FirstFree(r, w * DEPTH, w * DEPTH + DEPTH)
              && Value() == if slot == w * DEPTH + DEPTH then r else Filled(r, slot, t, accepted)
    {
      ReapDone(w);
      var end := w * DEPTH + DEPTH;
      slot := w * DEPTH;
      while slot < end && ticket[slot] != 0
        invariant w * DEPTH <= slot <= end
        invariant FirstFree(Value(), w * DEPTH, end) == FirstFree(Value(), slot, end)
      {
        slot := slot + 1;
      }
      if slot < end {
        status := status[slot := Pending];
        if accepted { ticket := ticket[slot := t]; }
      }
    }
  }

  function Filled(r: Regs, slot: int, t: nat, accepted: bool): (r': Regs)
    requires 0 <= slot < |r.ticket| == |r.status|
    ensures Sized(r', |r.ticket|)
  {
    r.(status := r.status[slot := Pending], ticket := if accepted then r.ticket[slot := t] else r.ticket)
  }
}
