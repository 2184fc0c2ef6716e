/** Completion of remote transfers: KVStoreRemote (_xfer, _on_done, _mark_done) on the client, KVStoreService (_xfer,
    poll_done) on the daemon, and responses and `done` pushes that travel independently of each other. */
module RemoteJobs {
  type Job = int
  type Layer = string

  /** An entry of _pending: the layers of the job and how many are not done. */
  datatype Entry = Entry(layers: set<Layer>, remaining: int)

  /** done holds the (job, layer) pairs whose RemoteTask is done. */
  datatype Client = Client(pending: map<Job, Entry>, early: map<Job, set<Layer>>, done: set<(Job, Layer)>)

  // ---- the client's callbacks ----

  predicate Known(c: Client, j: Job, l: Layer) { j in c.pending && l in c.pending[j].layers }

  function MarkDone(c: Client, j: Job, l: Layer): Client
    requires Known(c, j, l)
  {
    if (j, l) in c.done then c
    else
      var left := c.pending[j].remaining - 1;
      c.(done := c.done + {(j, l)},
         pending := if left == 0 then c.pending - {j} else c.pending[j := Entry(c.pending[j].layers, left)])
  }

  /** Marking a layer a second time changes nothing, and another layer's mark does not depend on it. */
  lemma MarkTwice(c: Client, j: Job, l: Layer, k: Layer)
    requires Known(c, j, l)
    ensures Known(MarkDone(c, j, l), j, l) ==> MarkDone(MarkDone(c, j, l), j, l) == MarkDone(c, j, l)
    ensures (j, k) in MarkDone(c, j, l).done <==> (j, k) in c.done || k == l
    ensures (j, l) in c.done ==> MarkDone(c, j, l) == c
  {
  }

  function Early(c: Client, j: Job): set<Layer> { if j in c.early then c.early[j] else {} }

  function OnDone(c: Client, j: Job, l: Layer): Client
    requires j in c.pending ==> Known(c, j, l)
  {
    if j !in c.pending then c.(early := c.early[j := Early(c, j) + {l}]) else MarkDone(c, j, l)
  }

  function Pairs(j: Job, layers: set<Layer>): set<(Job, Layer)> { set l | l in layers :: (j, l) }

  function Left(pending: map<Job, Entry>, j: Job, layers: set<Layer>, seen: set<Layer>): map<Job, Entry> {
    if layers <= seen then pending - {j} else pending[j := Entry(layers, |layers - seen|)]
  }

  /** The end of _xfer when the pushes for `seen` have been replayed: the job is registered, or over already. */
  function Registered(c: Client, j: Job, layers: set<Layer>, seen: set<Layer>): Client {
    Client(Left(c.pending, j, layers, seen), c.early - {j}, c.done + Pairs(j, seen))
  }

  class KVStoreRemote {
    var pending: map<Job, Entry>
    var early: map<Job, set<Layer>>
    var done: set<(Job, Layer)>

    ghost function Value(): Client
      reads this
    {
      Client(pending, early, done)
    }

    constructor ()
      ensures Value() == Client(map[], map[], {})
    {
      pending, early, done := map[], map[], {};
    }

    method MarkTask(j: Job, l: Layer)
      requires Known(Value(), j, l)
      modifies this
      ensures Value() == MarkDone(old(Value()), j, l)
    {
      if (j, l) in done { return; }
      done := done + {(j, l)};
      pending := pending[j := pending[j].(remaining := pending[j].remaining - 1)];
      if pending[j].remaining == 0 {
        pending := pending - {j};
        assert pending == old(pending) - {j};
      }
    }

    method Receive(j: Job, l: Layer)
      requires j in pending ==> Known(Value(), j, l)
      modifies this
      ensures Value() == OnDone(old(Value()), j, l)
    {
      if j !in pending {
        early := early[j := (if j in early then early[j] else {}) + {l}];
        return;
      }
      MarkTask(j, l);
    }

    /** The end of _xfer: registers the job and replays the pushes that came before its id. */
    method Register(j: Job, layers: set<Layer>)
      requires Early(Value(), j) <= layers && layers != {} && forall l :: (j, l) !in done
      modifies this
      ensures Value() == Registered(old(Value()), j, layers, Early(old(Value()), j))
    {
      ghost var c := Value();
      var all: set<Layer> := if j in early then early[j] else {};
      pending := pending[j := Entry(layers, |layers|)];
      early := early - {j};
      NothingSeen(c, j, layers);
      ReplayEarly(j, all, c, layers);
    }

    /** The loop over the early pushes. */
    method ReplayEarly(j: Job, all: set<Layer>, ghost c: Client, ghost layers: set<Layer>)
      requires all <= layers && (forall l :: l in all ==> (j, l) !in c.done) && Value() == Registered(c, j, layers, {})
      modifies this
      ensures Value() == Registered(c, j, layers, all)
    {
      var rest: set<Layer> := all;
      ghost var seen: set<Layer> := {};
      while rest != {}
        invariant seen + rest == all && seen !! rest && Value() == Registered(c, j, layers, seen)
        decreases |rest|
      {
        var l :| l in rest;
        SeenOne(c, j, layers, seen, l);
        MarkTask(j, l);
        rest, seen := rest - {l}, seen + {l};
      }
    }
  }

  lemma NothingSeen(c: Client, j: Job, layers: set<Layer>)
    requires layers != {}
    ensures Registered(c, j, layers, {}) == c.(pending := c.pending[j := Entry(layers, |layers|)], early := c.early - {j})
  {
    assert layers - {} == layers && Pairs(j, {}) == {};
  }

  lemma SeenOne(c: Client, j: Job, layers: set<Layer>, seen: set<Layer>, l: Layer)
    requires seen <= layers && l in layers && l !in seen && (j, l) !in c.done
    ensures Known(Registered(c, j, layers, seen), j, l)
    ensures MarkDone(Registered(c, j, layers, seen), j, l) == Registered(c, j, layers, seen + {l})
  {
    LeftOne(c.pending, j, layers, seen, l);
    PairsGrow(j, seen, l, c.done);
  }

  lemma PairsGrow(j: Job, seen: set<Layer>, l: Layer, done: set<(Job, Layer)>)
    requires l !in seen && (j, l) !in done
    ensures (j, l) !in done + Pairs(j, seen) && done + Pairs(j, seen) + {(j, l)} == done + Pairs(j, seen + {l})
  {
  }

  lemma LeftOne(pending: map<Job, Entry>, j: Job, layers: set<Layer>, seen: set<Layer>, l: Layer)
    requires seen <= layers && l in layers && l !in seen
    ensures j in Left(pending, j, layers, seen)
    ensures var p := Left(pending, j, layers, seen);
            var n := p[j].remaining - 1;
            p[j].layers == layers && Left(pending, j, layers, seen + {l}) == if n == 0 then p - {j} else p[j := Entry(layers, n)]
  {
    var left := layers - seen;
    assert left - {l} == layers - (seen + {l});
    assert |left - {l}| == |left| - 1;
    OneLeft(left, l);
    assert left == {l} <==> layers <= seen + {l};
    assert pending[j := Entry(layers, |left|)] - {j} == pending - {j};
  }

  lemma OneLeft(left: set<Layer>, l: Layer)
    requires l in left
    ensures |left| == 1 <==> left == {l}
  {
    if |left| == 1 { assert |left - {l}| == 0; }
  }
}
