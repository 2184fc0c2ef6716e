/** ScratchPool and the part of KVFlow that owns its blocks: transfers take scratch blocks, keep them while they are
    pending and give them back when waited for; an allocation that does not fit polls the pending transfers. A Python
    dictionary of pending tasks keeps insertion order, so it is a sequence here. */
module ScratchFlow {
  import opened Wrappers

  datatype Task = Task(id: int, blocks: seq<int>)

  function Range(n: nat): seq<int> { seq(n, i => i) }

  /** The blocks of all tasks. */
  function Flat(ts: seq<Task>): seq<int> { if ts == [] then [] else ts[0].blocks + Flat(ts[1..]) }

  ghost predicate Pending(ts: seq<Task>, id: int) { exists t :: t in ts && t.id == id }

  /** del pending[id] */
  function DropTask(ts: seq<Task>, id: int): seq<Task> {
    if ts == [] then [] else if ts[0].id == id then ts[1..] else [ts[0]] + DropTask(ts[1..], id)
  }

  ghost predicate Rising(ts: seq<Task>) { forall i, j :: 0 <= i < j < |ts| ==> ts[i].id < ts[j].id }

  lemma {:induction false} FlatAppend(ts: seq<Task>, t: Task)
    ensures Flat(ts + [t]) == Flat(ts) + t.blocks
  {
    if ts == [] {
      assert ([] + [t])[1..] == [];
    } else {
      FlatAppend(ts[1..], t);
      assert (ts + [t])[1..] == ts[1..] + [t];
    }
  }

  lemma {:induction false} FlatDrop(ts: seq<Task>, t: Task)
    requires Rising(ts) && t in ts
    ensures multiset(Flat(ts)) == multiset(Flat(DropTask(ts, t.id))) + multiset(t.blocks)
  {
    if ts[0].id == t.id {
      SameTask(ts, ts[0], t);
    } else {
      assert ts == [ts[0]] + ts[1..];
      FlatDrop(ts[1..], t);
      assert DropTask(ts, t.id)[1..] == DropTask(ts[1..], t.id);
    }
  }

  lemma SameTask(ts: seq<Task>, t: Task, u: Task)
    requires Rising(ts) && t in ts && u in ts && t.id == u.id
    ensures t == u
  {
  }

  lemma {:induction false} DropHas(ts: seq<Task>, id: int)
    requires Rising(ts)
    ensures forall t :: t in DropTask(ts, id) <==> t in ts && t.id != id
  {
    if ts != [] {
      assert ts == [ts[0]] + ts[1..];
      if ts[0].id == id {
        assert forall t :: t in ts[1..] ==> t.id != id;
      } else {
        DropHas(ts[1..], id);
      }
    }
  }

  lemma PrependRising(t: Task, ts: seq<Task>)
    requires Rising(ts) && forall u :: u in ts ==> t.id < u.id
    ensures Rising([t] + ts)
  {
  }

  lemma {:induction false} DropIs(ts: seq<Task>, id: int)
    requires Rising(ts)
    ensures forall t :: t in DropTask(ts, id) <==> t in ts && t.id != id
    ensures Rising(DropTask(ts, id))
  {
    DropHas(ts, id);
    if ts != [] && ts[0].id != id {
      DropIs(ts[1..], id);
      forall u | u in DropTask(ts[1..], id) ensures ts[0].id < u.id { assert u in ts[1..]; }
      PrependRising(ts[0], DropTask(ts[1..], id));
    }
  }

  // ---- the invariant ----

  /** Free list and pending blocks together are exactly the pool. */
  ghost predicate Conserved(n: nat, free: seq<int>, puts: seq<Task>, gets: seq<Task>) {
    multiset(free) + multiset(Flat(puts)) + multiset(Flat(gets)) == multiset(Range(n))
  }

  /** Ids are used once: those pending are distinct, those released are past. */
  ghost predicate Identified(puts: seq<Task>, gets: seq<Task>, released: seq<int>, next: int) {
    && Rising(puts) && Rising(gets)
    && (forall t :: t in puts ==> t.id < next && t.id !in released)
    && (forall t :: t in gets ==> t.id < next && t.id !in released)
    && (forall t, u :: t in puts && u in gets ==> t.id != u.id)
    && (forall x :: x in released ==> x < next)
    && (forall i, j :: 0 <= i < j < |released| ==> released[i] != released[j])
  }

  lemma {:induction false} RangeOnce(n: nat, b: int)
    ensures multiset(Range(n))[b] == if 0 <= b < n then 1 else 0
  {
    if n > 0 {
      RangeOnce(n - 1, b);
      assert Range(n) == Range(n - 1) + [n - 1];
    }
  }

  /** So every block of the pool is in one place, once: free, or in one pending put, or in one pending get. */
  lemma OnePlace(n: nat, free: seq<int>, puts: seq<Task>, gets: seq<Task>, b: int)
    requires Conserved(n, free, puts, gets)
    ensures multiset(free)[b] + multiset(Flat(puts))[b] + multiset(Flat(gets))[b] == if 0 <= b < n then 1 else 0
  {
    RangeOnce(n, b);
    assert (multiset(free) + multiset(Flat(puts)) + multiset(Flat(gets)))[b] == multiset(Range(n))[b];
  }

  lemma FreeIsAll(n: nat, free: seq<int>)
    requires Conserved(n, free, [], [])
    ensures |free| == n
  {
    assert |multiset(free)| == |multiset(Range(n))|;
  }

  lemma FreeAtMost(n: nat, free: seq<int>, puts: seq<Task>, gets: seq<Task>)
    requires Conserved(n, free, puts, gets)
    ensures |free| <= n
  {
    assert |multiset(free) + multiset(Flat(puts)) + multiset(Flat(gets))| == |multiset(Range(n))|;
  }

  ghost predicate Sound(n: nat, free: seq<int>, puts: seq<Task>, gets: seq<Task>, released: seq<int>, next: int) {
    Conserved(n, free, puts, gets) && Identified(puts, gets, released, next)
  }

  /** Starting a put takes its blocks from the end of the free list. */
  lemma TakeKeeps(n: nat, free: seq<int>, blocks: seq<int>, puts: seq<Task>, gets: seq<Task>, released: seq<int>, next: int)
    requires Sound(n, free + blocks, puts, gets, released, next)
    ensures Sound(n, free, puts + [Task(next, blocks)], gets, released, next + 1)
  {
    FlatAppend(puts, Task(next, blocks));
  }

  /** Finishing a put gives its blocks back. */
  lemma GiveKeeps(n: nat, free: seq<int>, puts: seq<Task>, gets: seq<Task>, released: seq<int>, next: int, t: Task)
    requires Sound(n, free, puts, gets, released, next) && t in puts
    ensures Sound(n, free + t.blocks, DropTask(puts, t.id), gets, released + [t.id], next)
  {
    GiveBlocks(n, free, puts, gets, t);
    GiveIdentified(puts, gets, released, next, t);
  }

  lemma GiveBlocks(n: nat, free: seq<int>, puts: seq<Task>, gets: seq<Task>, t: Task)
    requires Conserved(n, free, puts, gets) && Rising(puts) && t in puts
    ensures Conserved(n, free + t.blocks, DropTask(puts, t.id), gets)
  {
    FlatDrop(puts, t);
  }

  lemma GiveIdentified(puts: seq<Task>, gets: seq<Task>, released: seq<int>, next: int, t: Task)
    requires Identified(puts, gets, released, next) && t in puts
    ensures Identified(DropTask(puts, t.id), gets, released + [t.id], next)
  {
    DropIs(puts, t.id);
  }

  /** Puts and gets are treated alike. */
  lemma Symmetric(n: nat, free: seq<int>, puts: seq<Task>, gets: seq<Task>, released: seq<int>, next: int)
    requires Sound(n, free, puts, gets, released, next)
    ensures Sound(n, free, gets, puts, released, next)
  {
  }

  // ---- the objects ----

  class ScratchPool {
    var free: seq<int>
    const numBlocks: nat

    constructor (n: nat)
      ensures numBlocks == n && free == Range(n)
    {
      numBlocks := n;
      free := Range(n);
    }

    method Allocate(count: nat) returns (r: Option<seq<int>>)
      modifies this
      ensures r.Some? <==> count <= |old(free)|
      ensures r.Some? ==> |r.value| == count && free + r.value == old(free)
      ensures r.None? ==> free == old(free)
    {
      if count > |free| { return None; }
      var cut := |free| - count;
      r := Some(free[cut..]);
      free := free[..cut];
    }

    method Release(blocks: seq<int>)
      modifies this
      ensures free == old(free) + blocks
    {
      free := free + blocks;
    }
  }

  class KVFlow {
    const pool: ScratchPool
    var puts: seq<Task>
    var gets: seq<Task>
    var nextId: int
    ghost var released: seq<int>

    ghost predicate Valid()
      reads this, pool
    {
      Sound(pool.numBlocks, pool.free, puts, gets, released, nextId)
    }

    constructor (n: nat)
      ensures Valid() && fresh(pool) && pool.numBlocks == n && puts == [] && gets == []
    {
      pool := new ScratchPool(n);
      puts, gets, nextId, released := [], [], 0, [];
    }

    /** put, for one tensor, with the blocks it allocated. */
    method BeginPut(blocks: seq<int>) returns (t: Task)
      requires Sound(pool.numBlocks, pool.free + blocks, puts, gets, released, nextId)
      modifies this
      ensures Valid() && t == Task(old(nextId), blocks) && nextId == old(nextId) + 1
      ensures puts == old(puts) + [t] && gets == old(gets) && released == old(released)
    {
      TakeKeeps(pool.numBlocks, pool.free, blocks, puts, gets, released, nextId);
      t := Task(nextId, blocks);
      puts, nextId := puts + [t], nextId + 1;
    }

    /** get, for one tensor. */
    method BeginGet(blocks: seq<int>) returns (t: Task)
      requires Sound(pool.numBlocks, pool.free + blocks, puts, gets, released, nextId)
      modifies this
      ensures Valid() && t == Task(old(nextId), blocks) && nextId == old(nextId) + 1
      ensures gets == old(gets) + [t] && puts == old(puts) && released == old(released)
    {
      Symmetric(pool.numBlocks, pool.free + blocks, puts, gets, released, nextId);
      TakeKeeps(pool.numBlocks, pool.free, blocks, gets, puts, released, nextId);
      t := Task(nextId, blocks);
      Symmetric(pool.numBlocks, pool.free, gets + [t], puts, released, nextId + 1);
      gets, nextId := gets + [t], nextId + 1;
    }

    /** put_wait(wait=False) on one task: gives the blocks back if the transfer is complete and that was not done. */
    method PollPut(t: Task, complete: bool)
      requires Valid()
      modifies this, pool
      ensures Valid() && nextId == old(nextId) && gets == old(gets)
      ensures t in old(puts) && complete ==>
                pool.free == old(pool.free) + t.blocks && released == old(released) + [t.id] && puts == DropTask(old(puts), t.id)
      ensures !(t in old(puts) && complete) ==> pool.free == old(pool.free) && released == old(released) && puts == old(puts)
    {
      if t in puts && complete {
        GiveKeeps(pool.numBlocks, pool.free, puts, gets, released, nextId, t);
        pool.Release(t.blocks);
        puts, released := DropTask(puts, t.id), released + [t.id];
      }
    }

    method PollGet(t: Task, complete: bool)
      requires Valid()
      modifies this, pool
      ensures Valid() && nextId == old(nextId) && puts == old(puts)
      ensures t in old(gets) && complete ==>
                pool.free == old(pool.free) + t.blocks && released == old(released) + [t.id] && gets == DropTask(old(gets), t.id)
      ensures !(t in old(gets) && complete) ==> pool.free == old(pool.free) && released == old(released) && gets == old(gets)
    {
      if t in gets && complete {
        Symmetric(pool.numBlocks, pool.free, puts, gets, released, nextId);
        GiveKeeps(pool.numBlocks, pool.free, gets, puts, released, nextId, t);
        Symmetric(pool.numBlocks, pool.free + t.blocks, DropTask(gets, t.id), puts, released + [t.id], nextId);
        pool.Release(t.blocks);
        gets, released := DropTask(gets, t.id), released + [t.id];
      }
    }

    /** One pass over the pending puts. */
    method PollPuts(round: nat, readyAt: int -> nat)
      requires Valid()
      modifies this, pool
      ensures Valid() && gets == old(gets) && nextId == old(nextId)
      ensures forall t :: t in puts <==> t in old(puts) && readyAt(t.id) > round
    {
      var tasks, i := puts, 0;
      while i < |tasks|
        invariant 0 <= i <= |tasks| && Valid() && gets == old(gets) && nextId == old(nextId)
        invariant Swept(old(puts), puts, tasks[..i], round, readyAt)
      {
        SweepOne(old(puts), puts, tasks, i, round, readyAt);
        PollPut(tasks[i], readyAt(tasks[i].id) <= round);
        i := i + 1;
      }
      assert tasks[..i] == tasks;
    }

    method PollGets(round: nat, readyAt: int -> nat)
      requires Valid()
      modifies this, pool
      ensures Valid() && puts == old(puts) && nextId == old(nextId)
      ensures forall t :: t in gets <==> t in old(gets) && readyAt(t.id) > round
    {
      var tasks, i := gets, 0;
      while i < |tasks|
        invariant 0 <= i <= |tasks| && Valid() && puts == old(puts) && nextId == old(nextId)
        invariant Swept(old(gets), gets, tasks[..i], round, readyAt)
      {
        SweepOne(old(gets), gets, tasks, i, round, readyAt);
        PollGet(tasks[i], readyAt(tasks[i].id) <= round);
        i := i + 1;
      }
      assert tasks[..i] == tasks;
    }

    /** _allocate: polls the pending transfers until the blocks are there; None stands for the exhaustion error. Every
        pending transfer completes in some round, which readyAt gives. Only transfers complete by the rounds polled have
        given their blocks back, and there is no round when the blocks are free at once. */
    method Allocate(count: nat, readyAt: int -> nat) returns (r: Option<seq<int>>, ghost rounds: nat)
      requires Valid()
      modifies this, pool
      ensures r.None? <==> count > pool.numBlocks
      ensures r.None? ==> Valid()
      ensures r.Some? ==> |r.value| == count && Sound(pool.numBlocks, pool.free + r.value, puts, gets, released, nextId)
      ensures nextId == old(nextId) && (rounds == 0 <==> count <= |old(pool.free)| || (old(puts) == [] && old(gets) == []))
      ensures StillPending(old(puts), puts, rounds, readyAt) && StillPending(old(gets), gets, rounds, readyAt)
    {
      ghost var last := Latest(puts + gets, readyAt);
      LatestIs(puts + gets, readyAt);
      var round: nat := 0;
      rounds := 0;
      while true
        invariant Valid() && nextId == old(nextId) && rounds == round
        invariant StillPending(old(puts), puts, rounds, readyAt) && StillPending(old(gets), gets, rounds, readyAt)
        invariant rounds == 0 ==> pool.free == old(pool.free) && puts == old(puts) && gets == old(gets)
        invariant rounds > 0 ==> count > |old(pool.free)| && !(old(puts) == [] && old(gets) == [])
        invariant Bounded(puts, readyAt, last) && Bounded(gets, readyAt, last)
        invariant rounds > last ==> puts == [] && gets == []
        decreases last + 1 - rounds
      {
        r := pool.Allocate(count);
        if r.Some? {
          FreeAtMost(pool.numBlocks, pool.free + r.value, puts, gets);
          return;
        }
        if puts == [] && gets == [] {
          FreeIsAll(pool.numBlocks, pool.free);
          return;
        }
        PollAll(round, readyAt, last);
        round, rounds := round + 1, rounds + 1;
      }
    }

    /** One round over both kinds of pending transfers. */
    method PollAll(round: nat, readyAt: int -> nat, ghost last: nat)
      requires Valid() && Bounded(puts, readyAt, last) && Bounded(gets, readyAt, last)
      modifies this, pool
      ensures Valid() && nextId == old(nextId) && Bounded(puts, readyAt, last) && Bounded(gets, readyAt, last)
      ensures round >= last ==> puts == [] && gets == []
      ensures forall t :: t in puts <==> t in old(puts) && readyAt(t.id) > round
      ensures forall t :: t in gets <==> t in old(gets) && readyAt(t.id) > round
    {
      PollPuts(round, readyAt);
      PollGets(round, readyAt);
      NoneLeft(puts);
      NoneLeft(gets);
    }

    /** put_wait on several tasks: with wait, or when all of them are complete, gives back the blocks of those that still
        have them; otherwise returns false and releases nothing. */
    method PutWait(tasks: seq<Task>, wait: bool, complete: int -> bool) returns (done: bool)
      requires Valid()
      modifies this, pool
      ensures Valid() && gets == old(gets) && nextId == old(nextId)
      ensures done <==> wait || AllComplete(old(puts), tasks, complete)
      ensures !done ==> puts == old(puts) && pool.free == old(pool.free) && released == old(released)
      ensures done ==> forall t :: t in puts <==> t in old(puts) && t !in tasks
    {
      if !wait {
        for i := 0 to |tasks|
          invariant AllComplete(puts, tasks[..i], complete)
        {
          assert tasks[..i + 1] == tasks[..i] + [tasks[i]];
          if tasks[i] in puts && !complete(tasks[i].id) {
            assert tasks[i] in tasks;
            return false;
          }
        }
        assert tasks[..|tasks|] == tasks;
      }
      var i := 0;
      while i < |tasks|
        invariant 0 <= i <= |tasks| && Valid() && gets == old(gets) && nextId == old(nextId)
        invariant Rest(old(puts), puts, tasks[..i])
      {
        RestOne(old(puts), puts, tasks, i);
        PollPut(tasks[i], true);
        i := i + 1;
      }
      assert tasks[..i] == tasks;
      return true;
    }

    /** get_wait on several tasks. */
    method GetWait(tasks: seq<Task>, wait: bool, complete: int -> bool) returns (done: bool)
      requires Valid()
      modifies this, pool
      ensures Valid() && puts == old(puts) && nextId == old(nextId)
      ensures done <==> wait || AllComplete(old(gets), tasks, complete)
      ensures !done ==> gets == old(gets) && pool.free == old(pool.free) && released == old(released)
      ensures done ==> forall t :: t in gets <==> t in old(gets) && t !in tasks
    {
      if !wait {
        for i := 0 to |tasks|
          invariant AllComplete(gets, tasks[..i], complete)
        {
          assert tasks[..i + 1] == tasks[..i] + [tasks[i]];
          if tasks[i] in gets && !complete(tasks[i].id) {
            assert tasks[i] in tasks;
            return false;
          }
        }
        assert tasks[..|tasks|] == tasks;
      }
      var i := 0;
      while i < |tasks|
        invariant 0 <= i <= |tasks| && Valid() && puts == old(puts) && nextId == old(nextId)
        invariant Rest(old(gets), gets, tasks[..i])
      {
        RestOne(old(gets), gets, tasks, i);
        PollGet(tasks[i], true);
        i := i + 1;
      }
      assert tasks[..i] == tasks;
      return true;
    }
  }

  /** `now` are the tasks of `was` that no round before `rounds` found complete. */
  ghost predicate StillPending(was: seq<Task>, now: seq<Task>, rounds: nat, readyAt: int -> nat) {
    forall t :: t in now <==> t in was && readyAt(t.id) >= rounds
  }

  /** Those of the tasks that are still pending are complete. */
  ghost predicate AllComplete(pending: seq<Task>, tasks: seq<Task>, complete: int -> bool) {
    forall t :: t in tasks && t in pending ==> complete(t.id)
  }

  /** `now` are the tasks of `was` without those of `seen`. */
  ghost predicate Rest(was: seq<Task>, now: seq<Task>, seen: seq<Task>) {
    Rising(was) && Rising(now) && forall t :: t in now <==> t in was && t !in seen
  }

  lemma RestOne(was: seq<Task>, now: seq<Task>, tasks: seq<Task>, i: nat)
    requires i < |tasks| && Rest(was, now, tasks[..i])
    ensures tasks[i] in now ==> Rest(was, DropTask(now, tasks[i].id), tasks[..i + 1])
    ensures tasks[i] !in now ==> Rest(was, now, tasks[..i + 1])
  {
    assert tasks[..i + 1] == tasks[..i] + [tasks[i]];
    DropIs(now, tasks[i].id);
    if tasks[i] in now {
      forall t | t in now && t.id == tasks[i].id ensures t == tasks[i] { SameTask(now, t, tasks[i]); }
    }
  }

  lemma NoneLeft(ts: seq<Task>)
    ensures (forall t :: t !in ts) ==> ts == []
  {
    if ts != [] { assert ts[0] in ts; }
  }

  ghost predicate Bounded(ts: seq<Task>, readyAt: int -> nat, last: nat) { forall t :: t in ts ==> readyAt(t.id) <= last }

  /** The last round in which a task of ts completes. */
  ghost function Latest(ts: seq<Task>, readyAt: int -> nat): nat {
    if ts == [] then 0
    else
      var m := Latest(ts[1..], readyAt);
      if readyAt(ts[0].id) > m then readyAt(ts[0].id) else m
  }

  lemma {:induction false} LatestIs(ts: seq<Task>, readyAt: int -> nat)
    ensures Bounded(ts, readyAt, Latest(ts, readyAt))
  {
    if ts != [] {
      LatestIs(ts[1..], readyAt);
      assert ts == [ts[0]] + ts[1..];
    }
  }

  /** After polling the tasks `seen`, those of them that are ready are no longer pending. */
  ghost predicate Swept(was: seq<Task>, now: seq<Task>, seen: seq<Task>, round: nat, readyAt: int -> nat) {
    forall t :: t in now <==> t in was && (t in seen ==> readyAt(t.id) > round)
  }

  lemma SweepOne(was: seq<Task>, now: seq<Task>, tasks: seq<Task>, i: nat, round: nat, readyAt: int -> nat)
    requires i < |tasks| && tasks == was && Rising(was) && Rising(now) && Swept(was, now, tasks[..i], round, readyAt)
    ensures readyAt(tasks[i].id) > round ==> Swept(was, now, tasks[..i + 1], round, readyAt)
    ensures readyAt(tasks[i].id) <= round ==> tasks[i] in now && Swept(was, DropTask(now, tasks[i].id), tasks[..i + 1], round, readyAt)
  {
    assert tasks[..i + 1] == tasks[..i] + [tasks[i]];
    assert tasks[i] in was && tasks[i] !in tasks[..i];
    DropIs(now, tasks[i].id);
    forall t | t in was && t.id == tasks[i].id ensures t == tasks[i] { SameTask(was, t, tasks[i]); }
  }
}
