/** Which backend slot is driven by which thread (lane_plan). */
module LanePlan {
  import opened Arith
  import opened ZipBlock

  /** The zip configuration: workers and queue depth per backend, and IAXL_OMP_THREAD_NUM. The environment clamps the
      depths and the thread count to at least 1. */
  datatype Config = Config(qat: nat, iaa: nat, cpu: nat, qatDepth: nat, iaaDepth: nat, cpuDepth: nat, threads: nat) {
    predicate Valid() { qatDepth >= 1 && iaaDepth >= 1 && cpuDepth >= 1 && threads >= 1 }

    function Workers(): nat { qat + iaa + cpu }

    function BackendOf(w: nat): Backend { if w < qat then QAT else if w < qat + iaa then IAA else CPU }

    function First(b: Backend): nat { match b case QAT => 0 case IAA => qat case CPU => qat + iaa }

    function Count(b: Backend): nat { match b case QAT => qat case IAA => iaa case CPU => cpu }

    function Depth(b: Backend): nat { match b case QAT => qatDepth case IAA => iaaDepth case CPU => cpuDepth }

    function WorkerDepth(w: nat): nat { Depth(BackendOf(w)) }

    function Slot(w: nat, k: nat): int { (w - First(BackendOf(w))) * WorkerDepth(w) + k }
  }

  /** The settings behind it: which backends are enabled, and how many instances of each the environment asks for, zero
      included. */
  datatype Env = Env(qatOn: bool, iaaOn: bool, cpuOn: bool, qatNum: nat, iaaNum: nat, cpuNum: nat,
                     qatDepth: nat, iaaDepth: nat, cpuDepth: nat, threads: nat) {
    function Plan(): Config {
      Config(if qatOn then qatNum else 0, if iaaOn then iaaNum else 0, if cpuOn then cpuNum else 0,
             qatDepth, iaaDepth, cpuDepth, threads)
    }
  }

  datatype Lane = Lane(backend: Backend, slot: int, owner: nat)

  /** Slot k of worker w. */
  datatype Cell = Cell(w: nat, k: nat)

  predicate Before(a: Cell, b: Cell) { a.k < b.k || (a.k == b.k && a.w < b.w) }

  /** The cells listed so far: in order, all real, and complete for rounds before k and for workers before w of
      round k. */
  ghost predicate Listed(c: Config, cells: seq<Cell>, k: nat, w: nat) {
    && (forall i, j :: 0 <= i < j < |cells| ==> Before(cells[i], cells[j]))
    && (forall i :: 0 <= i < |cells| ==>
          cells[i].w < c.Workers() && cells[i].k < c.WorkerDepth(cells[i].w) && Before(cells[i], Cell(w, k)))
    && (forall x: Cell :: x.w < c.Workers() && x.k < c.WorkerDepth(x.w) && Before(x, Cell(w, k)) ==> x in cells)
  }

  ghost predicate SameLanes(c: Config, lanes: seq<Lane>, cells: seq<Cell>) {
    |lanes| == |cells| && forall j :: 0 <= j < |lanes| ==> lanes[j] == LaneFor(c, cells[j])
  }

  function LaneFor(c: Config, x: Cell): Lane { Lane(c.BackendOf(x.w), c.Slot(x.w, x.k), x.w) }

  /** The body of the inner loop: worker w's slot k, if it has one. */
  method ListCell(c: Config, k: nat, w: nat, lanes: seq<Lane>, ghost cells: seq<Cell>)
    returns (lanes': seq<Lane>, ghost cells': seq<Cell>)
    requires Listed(c, cells, k, w) && SameLanes(c, lanes, cells) && w < c.Workers()
    ensures Listed(c, cells', k, w + 1) && SameLanes(c, lanes', cells')
    ensures |lanes'| == |lanes| + (if k < c.WorkerDepth(w) then 1 else 0)
  {
    var backend := c.BackendOf(w);
    var depth := c.Depth(backend);
    lanes', cells' := lanes, cells;
    if k < depth {
      var lane := Lane(backend, (w - c.First(backend)) * depth + k, w);
      assert lane == LaneFor(c, Cell(w, k));
      ListedCell(c, cells, k, w);
      lanes', cells' := lanes + [lane], cells + [Cell(w, k)];
    } else {
      SkippedCell(c, cells, k, w);
    }
  }

  lemma ListedCell(c: Config, cells: seq<Cell>, k: nat, w: nat)
    requires Listed(c, cells, k, w) && w < c.Workers() && k < c.WorkerDepth(w)
    ensures Listed(c, cells + [Cell(w, k)], k, w + 1)
  {
    forall x: Cell | x.w < c.Workers() && x.k < c.WorkerDepth(x.w) && Before(x, Cell(w + 1, k))
      ensures x in cells + [Cell(w, k)]
    {
      assert x == Cell(w, k) || Before(x, Cell(w, k));
    }
  }

  lemma SkippedCell(c: Config, cells: seq<Cell>, k: nat, w: nat)
    requires Listed(c, cells, k, w) && k >= c.WorkerDepth(w)
    ensures Listed(c, cells, k, w + 1)
  {
    forall x: Cell | x.w < c.Workers() && x.k < c.WorkerDepth(x.w) && Before(x, Cell(w + 1, k)) ensures x in cells {
      assert x != Cell(w, k);
      assert Before(x, Cell(w, k));
    }
  }

  /** One round: slot k of every worker that has one. */
  method ListRound(c: Config, k: nat, lanes: seq<Lane>, ghost cells: seq<Cell>)
    returns (lanes': seq<Lane>, ghost cells': seq<Cell>)
    requires Listed(c, cells, k, 0) && SameLanes(c, lanes, cells)
    ensures Listed(c, cells', k, c.Workers()) && SameLanes(c, lanes', cells')
    ensures |lanes| <= |lanes'|
    ensures |lanes'| == |lanes| ==> forall w :: 0 <= w < c.Workers() ==> c.WorkerDepth(w) <= k
    ensures |lanes'| > |lanes| ==> k < Max(c.qatDepth, Max(c.iaaDepth, c.cpuDepth))
  {
    lanes', cells' := lanes, cells;
    for w := 0 to c.Workers()
      invariant Listed(c, cells', k, w) && SameLanes(c, lanes', cells')
      invariant |lanes| <= |lanes'|
      invariant |lanes'| == |lanes| ==> forall v :: 0 <= v < w ==> c.WorkerDepth(v) <= k
      invariant |lanes'| > |lanes| ==> k < Max(c.qatDepth, Max(c.iaaDepth, c.cpuDepth))
    {
      lanes', cells' := ListCell(c, k, w, lanes', cells');
    }
  }

  /** All slots, slot k of every worker before slot k + 1 of any; `owner` still holds the worker. */
  method ListLanes(c: Config) returns (lanes: seq<Lane>, ghost cells: seq<Cell>)
    ensures SameLanes(c, lanes, cells)
    ensures forall i, j :: 0 <= i < j < |cells| ==> Before(cells[i], cells[j])
    ensures forall x: Cell :: x in cells <==> x.w < c.Workers() && x.k < c.WorkerDepth(x.w)
  {
    lanes, cells := [], [];
    var k := 0;
    while true
      invariant Listed(c, cells, k, 0) && SameLanes(c, lanes, cells)
      decreases Max(c.qatDepth, Max(c.iaaDepth, c.cpuDepth)) + 1 - k
    {
      var before := |lanes|;
      lanes, cells := ListRound(c, k, lanes, cells);
      NextRound(c, cells, k);
      if |lanes| == before {
        AllListed(c, cells, k);
        return;
      }
      k := k + 1;
    }
  }

  lemma NextRound(c: Config, cells: seq<Cell>, k: nat)
    requires Listed(c, cells, k, c.Workers())
    ensures Listed(c, cells, k + 1, 0)
  {
    forall x: Cell | x.w < c.Workers() && x.k < c.WorkerDepth(x.w) && Before(x, Cell(0, k + 1)) ensures x in cells {
      assert Before(x, Cell(c.Workers(), k));
    }
  }

  lemma AllListed(c: Config, cells: seq<Cell>, k: nat)
    requires Listed(c, cells, k, c.Workers())
    requires forall w :: 0 <= w < c.Workers() ==> c.WorkerDepth(w) <= k
    ensures forall x: Cell :: x in cells <==> x.w < c.Workers() && x.k < c.WorkerDepth(x.w)
  {
    forall x: Cell | x.w < c.Workers() && x.k < c.WorkerDepth(x.w) ensures x in cells {
      assert Before(x, Cell(c.Workers(), k));
    }
  }

  // ---- what the plan promises ----

  /** Every backend slot is driven by exactly one lane, and there are no other lanes. */
  ghost predicate EachSlotOnce(c: Config, lanes: seq<Lane>) {
    && (forall j :: 0 <= j < |lanes| ==> 0 <= lanes[j].slot < c.Count(lanes[j].backend) * c.Depth(lanes[j].backend))
    && (forall b: Backend, s: nat :: s < c.Count(b) * c.Depth(b) ==> Driven(lanes, b, s))
    && (forall i, j :: 0 <= i < j < |lanes| ==> lanes[i].backend != lanes[j].backend || lanes[i].slot != lanes[j].slot)
  }

  ghost predicate Driven(lanes: seq<Lane>, b: Backend, s: nat) {
    exists j :: 0 <= j < |lanes| && lanes[j].backend == b && lanes[j].slot == s
  }

  /** Every thread drives at least one lane and every lane has a thread. */
  ghost predicate EveryThreadBusy(lanes: seq<Lane>, threads: nat) {
    && (forall j :: 0 <= j < |lanes| ==> lanes[j].owner < threads)
    && (forall t: nat :: t < threads ==> Drives(lanes, t))
  }

  ghost predicate Drives(lanes: seq<Lane>, t: nat) { exists j :: 0 <= j < |lanes| && lanes[j].owner == t }

  /** Two slots of one worker are driven by the same thread. */
  ghost predicate WorkersStayTogether(c: Config, lanes: seq<Lane>) {
    forall i, j :: 0 <= i < |lanes| && 0 <= j < |lanes| && SameWorker(c, lanes[i], lanes[j]) ==>
      lanes[i].owner == lanes[j].owner
  }

  ghost predicate SameWorker(c: Config, a: Lane, b: Lane) {
    a.backend == b.backend && c.Depth(a.backend) > 0 && a.slot / c.Depth(a.backend) == b.slot / c.Depth(b.backend)
  }

  /** The slot number of a cell is in range and determines the worker and k. */
  lemma SlotOf(c: Config, x: Cell)
    requires x.w < c.Workers() && x.k < c.WorkerDepth(x.w)
    ensures var b := c.BackendOf(x.w);
            && 0 <= x.w - c.First(b) < c.Count(b)
            && 0 <= c.Slot(x.w, x.k) < c.Count(b) * c.Depth(b)
            && c.Slot(x.w, x.k) / c.Depth(b) == x.w - c.First(b)
            && c.Slot(x.w, x.k) % c.Depth(b) == x.k
  {
    var b := c.BackendOf(x.w);
    MulLess(x.w - c.First(b), c.Count(b), c.Depth(b), x.k);
    DivUnique(c.Slot(x.w, x.k), c.Depth(b), x.w - c.First(b), x.k);
  }

  lemma SlotsDistinct(c: Config, lanes: seq<Lane>, cells: seq<Cell>, i: nat, j: nat)
    requires SameLanes(c, lanes, cells) && i < j < |lanes| && Before(cells[i], cells[j])
    requires cells[i].w < c.Workers() && cells[i].k < c.WorkerDepth(cells[i].w)
    requires cells[j].w < c.Workers() && cells[j].k < c.WorkerDepth(cells[j].w)
    ensures lanes[i].backend != lanes[j].backend || lanes[i].slot != lanes[j].slot
  {
    SlotOf(c, cells[i]);
    SlotOf(c, cells[j]);
  }

  lemma CellOf(c: Config, b: Backend, s: nat) returns (x: Cell)
    requires c.Valid() && s < c.Count(b) * c.Depth(b)
    ensures x.w < c.Workers() && x.k < c.WorkerDepth(x.w) && c.BackendOf(x.w) == b && c.Slot(x.w, x.k) == s
  {
    var d := c.Depth(b);
    var q, r := QuotRem(s, c.Count(b), d);
    x := Cell(c.First(b) + q, r);
    assert c.BackendOf(x.w) == b;
    assert c.Slot(x.w, x.k) == q * d + r;
  }

  lemma SlotDriven(c: Config, lanes: seq<Lane>, cells: seq<Cell>, b: Backend, s: nat)
    requires c.Valid() && SameLanes(c, lanes, cells)
    requires forall x: Cell :: x.w < c.Workers() && x.k < c.WorkerDepth(x.w) ==> x in cells
    requires s < c.Count(b) * c.Depth(b)
    ensures Driven(lanes, b, s)
  {
    var x := CellOf(c, b, s);
    assert x in cells;
    var j :| 0 <= j < |cells| && cells[j] == x;
    assert lanes[j].backend == b && lanes[j].slot == s;
  }

  /** The second loop of lane_plan: which thread drives a lane. */
  function Owner(c: Config, threads: nat, lane: Lane, j: nat): nat
    requires threads > 0
  {
    if threads <= c.Workers() then lane.owner % threads else j % threads
  }

  method PlanLanes(c: Config) returns (lanes: seq<Lane>, threads: nat)
    requires c.Valid()
    ensures threads == if c.threads < |lanes| then c.threads else |lanes|
    ensures EachSlotOnce(c, lanes)
    ensures EveryThreadBusy(lanes, threads)
    ensures threads <= c.Workers() ==> WorkersStayTogether(c, lanes)
    ensures Dealt(c, lanes, threads)
  {
    var all, cells := ListLanes(c);
    threads := if c.threads < |all| then c.threads else |all|;
    lanes := [];
    for j := 0 to |all|
      invariant |lanes| == j
      invariant forall i :: 0 <= i < j ==> lanes[i] == all[i].(owner := Owner(c, threads, all[i], i))
    {
      lanes := lanes + [all[j].(owner := Owner(c, threads, all[j], j))];
    }
    SlotsOnce(c, all, cells);
    SlotsKept(c, all, lanes);
    ThreadsBusy(c, all, cells, lanes, threads);
    if 0 < threads <= c.Workers() { Together(c, all, cells, lanes, threads); }
    LanesDealt(c, all, cells, lanes, threads);
  }

  /** The worker a lane's slot belongs to, and which of its slots it is. */
  function WorkerOf(c: Config, lane: Lane): int
    requires c.Valid()
  {
    c.First(lane.backend) + lane.slot / c.Depth(lane.backend)
  }

  function PlaceOf(c: Config, lane: Lane): int
    requires c.Valid()
  {
    lane.slot % c.Depth(lane.backend)
  }

  /** First slots before second slots, worker by worker; up to one thread per worker the threads take the workers in turn,
      more threads take the lanes in turn. */
  ghost predicate Dealt(c: Config, lanes: seq<Lane>, threads: nat)
    requires c.Valid()
  {
    && (forall i, j :: 0 <= i < j < |lanes| ==>
          || PlaceOf(c, lanes[i]) < PlaceOf(c, lanes[j])
          || (PlaceOf(c, lanes[i]) == PlaceOf(c, lanes[j]) && WorkerOf(c, lanes[i]) < WorkerOf(c, lanes[j])))
    && (threads > 0 ==> forall j :: 0 <= j < |lanes| ==>
          lanes[j].owner == if threads <= c.qat + c.iaa + c.cpu then WorkerOf(c, lanes[j]) % threads else j % threads)
  }

  lemma LanesDealt(c: Config, all: seq<Lane>, cells: seq<Cell>, lanes: seq<Lane>, threads: nat)
    requires c.Valid() && SameLanes(c, all, cells) && |lanes| == |all|
    requires forall i, j :: 0 <= i < j < |cells| ==> Before(cells[i], cells[j])
    requires forall x: Cell :: x in cells <==> x.w < c.Workers() && x.k < c.WorkerDepth(x.w)
    requires forall i :: 0 <= i < |all| ==> lanes[i] == all[i].(owner := lanes[i].owner)
    requires threads > 0 ==> forall i :: 0 <= i < |all| ==> lanes[i].owner == Owner(c, threads, all[i], i)
    ensures Dealt(c, lanes, threads)
  {
    forall j | 0 <= j < |lanes| ensures WorkerOf(c, lanes[j]) == cells[j].w == all[j].owner && PlaceOf(c, lanes[j]) == cells[j].k {
      assert cells[j] in cells;
      SlotOf(c, cells[j]);
    }
  }

  lemma SlotsOnce(c: Config, all: seq<Lane>, cells: seq<Cell>)
    requires c.Valid() && SameLanes(c, all, cells)
    requires forall i, j :: 0 <= i < j < |cells| ==> Before(cells[i], cells[j])
    requires forall x: Cell :: x in cells <==> x.w < c.Workers() && x.k < c.WorkerDepth(x.w)
    ensures EachSlotOnce(c, all)
  {
    forall j | 0 <= j < |all| ensures 0 <= all[j].slot < c.Count(all[j].backend) * c.Depth(all[j].backend) {
      assert cells[j] in cells;
      SlotOf(c, cells[j]);
    }
    forall b: Backend, s: nat | s < c.Count(b) * c.Depth(b) ensures Driven(all, b, s) {
      SlotDriven(c, all, cells, b, s);
    }
    forall i, j | 0 <= i < j < |all| ensures all[i].backend != all[j].backend || all[i].slot != all[j].slot {
      assert cells[i] in cells && cells[j] in cells;
      SlotsDistinct(c, all, cells, i, j);
    }
  }

  /** Choosing owners changes neither backends nor slots. */
  lemma SlotsKept(c: Config, all: seq<Lane>, lanes: seq<Lane>)
    requires EachSlotOnce(c, all) && |lanes| == |all|
    requires forall i :: 0 <= i < |all| ==> lanes[i] == all[i].(owner := lanes[i].owner)
    ensures EachSlotOnce(c, lanes)
  {
    forall b: Backend, s: nat | s < c.Count(b) * c.Depth(b) ensures Driven(lanes, b, s) {
      assert Driven(all, b, s);
      var j :| 0 <= j < |all| && all[j].backend == b && all[j].slot == s;
      assert lanes[j].backend == b && lanes[j].slot == s;
    }
  }

  lemma ThreadsBusy(c: Config, all: seq<Lane>, cells: seq<Cell>, lanes: seq<Lane>, threads: nat)
    requires c.Valid() && SameLanes(c, all, cells) && |lanes| == |all| && threads <= |all|
    requires threads > 0 || all == []
    requires forall x: Cell :: x in cells <==> x.w < c.Workers() && x.k < c.WorkerDepth(x.w)
    requires forall i :: 0 <= i < |all| && threads > 0 ==> lanes[i].owner == Owner(c, threads, all[i], i)
    ensures EveryThreadBusy(lanes, threads)
  {
    forall t: nat | t < threads ensures Drives(lanes, t) {
      if threads <= c.Workers() {
        var x := Cell(t, 0);
        assert x in cells;
        var j :| 0 <= j < |cells| && cells[j] == x;
        ModSmall(t, threads);
        assert lanes[j].owner == t;
      } else {
        ModSmall(t, threads);
        assert lanes[t].owner == t;
      }
    }
  }

  lemma Together(c: Config, all: seq<Lane>, cells: seq<Cell>, lanes: seq<Lane>, threads: nat)
    requires c.Valid() && SameLanes(c, all, cells) && |lanes| == |all| && 0 < threads <= c.Workers()
    requires forall x: Cell :: x in cells <==> x.w < c.Workers() && x.k < c.WorkerDepth(x.w)
    requires forall i :: 0 <= i < |all| ==> lanes[i] == all[i].(owner := Owner(c, threads, all[i], i))
    ensures WorkersStayTogether(c, lanes)
  {
    forall i, j | 0 <= i < |lanes| && 0 <= j < |lanes| && SameWorker(c, lanes[i], lanes[j])
      ensures lanes[i].owner == lanes[j].owner
    {
      assert cells[i] in cells && cells[j] in cells;
      SlotOf(c, cells[i]);
      SlotOf(c, cells[j]);
      assert cells[i].w == cells[j].w;
    }
  }
}
