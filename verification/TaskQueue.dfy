/** TaskQueue: four levels of waiting tasks, most urgent first, one worker. The class is the queue itself, each method
    being one section of code under the mutex; the functions say what the sections do to the levels. */
module TaskQueue {
  const LEVELS := 4
  const LOW := 3

  /** A task; `level` is the priority it was submitted with. */
  datatype Item = Item(id: nat, level: nat, bundle: nat, key: int)

  datatype Status = Created | Running | Stopping | Stopped
  datatype Outcome = Ok | BadPriority | NotRunning

  type Levels = seq<seq<Item>>

  predicate GoodPriority(p: int) { 0 <= p < LEVELS }

  // ---- picking tasks out of a level ----

  datatype Sel =
    | ByKey(key: int)
    | Untagged(level: nat, key: int)   // tasks without a bundle that share a level and a sort key
    | Bundles(ids: seq<nat>)
    | NotBundles(ids: seq<nat>)

  predicate Picks(sel: Sel, x: Item) {
    match sel
    case ByKey(k) => x.key == k
    case Untagged(l, k) => x.bundle == 0 && x.level == l && x.key == k
    case Bundles(ids) => x.bundle != 0 && x.bundle in ids
    case NotBundles(ids) => !(x.bundle != 0 && x.bundle in ids)
  }

  function Pick(sel: Sel, s: seq<Item>): (r: seq<Item>)
    ensures forall x :: x in r <==> x in s && Picks(sel, x)
  {
    if s == [] then []
    else
      var last := s[|s| - 1];
      assert s == s[..|s| - 1] + [last];
      if Picks(sel, last) then Pick(sel, s[..|s| - 1]) + [last] else Pick(sel, s[..|s| - 1])
  }

  lemma {:induction false} PickConcat(sel: Sel, s: seq<Item>, t: seq<Item>)
    ensures Pick(sel, s + t) == Pick(sel, s) + Pick(sel, t)
  {
    if t == [] {
      assert s + t == s;
    } else {
      PickConcat(sel, s, t[..|t| - 1]);
      assert (s + t)[..|s + t| - 1] == s + t[..|t| - 1];
    }
  }

  lemma PickOne(sel: Sel, x: Item)
    ensures Pick(sel, [x]) == if Picks(sel, x) then [x] else []
  {
    assert [x][..0] == [];
  }

  function Single(sel: Sel, x: Item): seq<Item> { if Picks(sel, x) then [x] else [] }

  lemma PickFirst(sel: Sel, x: Item, s: seq<Item>)
    ensures Pick(sel, [x] + s) == Single(sel, x) + Pick(sel, s)
  {
    PickConcat(sel, [x], s);
    PickOne(sel, x);
  }

  /** What the bundles leave behind still holds the untagged tasks, in order. */
  lemma {:induction false} UntaggedStay(l: nat, k: int, ids: seq<nat>, s: seq<Item>)
    ensures Pick(Untagged(l, k), Pick(NotBundles(ids), s)) == Pick(Untagged(l, k), s)
  {
    if s != [] {
      var init, last := s[..|s| - 1], s[|s| - 1];
      UntaggedStay(l, k, ids, init);
      if Picks(NotBundles(ids), last) {
        PickConcat(Untagged(l, k), Pick(NotBundles(ids), init), [last]);
        PickOne(Untagged(l, k), last);
      }
    }
  }

  lemma {:induction false} BundlesHoldNoUntagged(l: nat, k: int, ids: seq<nat>, s: seq<Item>)
    ensures Pick(Untagged(l, k), Pick(Bundles(ids), s)) == []
  {
    if s != [] {
      var init, last := s[..|s| - 1], s[|s| - 1];
      BundlesHoldNoUntagged(l, k, ids, init);
      PickConcat(Untagged(l, k), Pick(Bundles(ids), init), [last]);
      PickOne(Untagged(l, k), last);
    }
  }

  lemma {:induction false} PickSplits(ids: seq<nat>, s: seq<Item>)
    ensures multiset(Pick(Bundles(ids), s)) + multiset(Pick(NotBundles(ids), s)) == multiset(s)
  {
    if s != [] {
      PickSplits(ids, s[..|s| - 1]);
      assert s == s[..|s| - 1] + [s[|s| - 1]];
    }
  }

  // ---- moving bundles ----

  /** The waiting tasks of the bundles on level a and the less urgent ones, level by level. */
  function Gather(levels: Levels, ids: seq<nat>, a: nat): seq<Item>
    decreases |levels| - a
  {
    if a >= |levels| then [] else Pick(Bundles(ids), levels[a]) + Gather(levels, ids, a + 1)
  }

  function Moved(levels: Levels, ids: seq<nat>, p: nat): (r: Levels)
    requires p < |levels|
    ensures |r| == |levels|
  {
    seq(|levels|, l requires 0 <= l < |levels| =>
      if l < p then levels[l]
      else if l == p then levels[p] + Gather(levels, ids, p + 1)
      else Pick(NotBundles(ids), levels[l]))
  }

  /** What set_bundles_priority has done to the levels when it is about to look at `level`. */
  ghost predicate Moving(was: Levels, levels: Levels, ids: seq<nat>, p: nat, level: nat)
    requires p < level <= |was| == |levels|
  {
    && (forall l :: 0 <= l < |levels| && (l < p || l >= level) ==> levels[l] == was[l])
    && (forall l :: p < l < level ==> levels[l] == Pick(NotBundles(ids), was[l]))
    && levels[p] + Gather(was, ids, level) == was[p] + Gather(was, ids, p + 1)
  }

  lemma MoveOne(was: Levels, levels: Levels, ids: seq<nat>, p: nat, level: nat)
    requires p < level < |was| == |levels| && Moving(was, levels, ids, p, level)
    ensures levels[level] == was[level]
    ensures Moving(was, levels[p := levels[p] + Pick(Bundles(ids), was[level])][level := Pick(NotBundles(ids), was[level])],
                   ids, p, level + 1)
  {
    var a, b := Pick(Bundles(ids), was[level]), Gather(was, ids, level + 1);
    assert levels[p] + (a + b) == levels[p] + a + b;
  }

  lemma MoveEnds(was: Levels, levels: Levels, ids: seq<nat>, p: nat)
    requires p < |was| == |levels| && Moving(was, levels, ids, p, |was|)
    ensures levels == Moved(was, ids, p)
  {
    assert levels[p] + Gather(was, ids, |was|) == levels[p];
  }

  /** a is b with some tasks left out. */
  ghost predicate Within(a: seq<Item>, b: seq<Item>)
    decreases |b|
  {
    if b == [] then a == []
    else Within(a, b[..|b| - 1]) || (a != [] && a[|a| - 1] == b[|b| - 1] && Within(a[..|a| - 1], b[..|b| - 1]))
  }

  lemma {:induction false} PickWithin(sel: Sel, s: seq<Item>)
    ensures Within(Pick(sel, s), s)
  {
    if s != [] {
      var init, last := s[..|s| - 1], s[|s| - 1];
      PickWithin(sel, init);
      if Picks(sel, last) {
        var r := Pick(sel, s);
        assert r[..|r| - 1] == Pick(sel, init) && r[|r| - 1] == last;
      }
    }
  }

  function Flat(parts: Levels, a: nat): seq<Item>
    decreases |parts| - a
  {
    if a >= |parts| then [] else parts[a] + Flat(parts, a + 1)
  }

  /** Level l is split into `part` and `kept`, both in order: exactly the tasks tagged with one of the ids are in `part`. */
  ghost predicate SplitBy(level: seq<Item>, ids: seq<nat>, part: seq<Item>, kept: seq<Item>) {
    && Within(part, level) && Within(kept, level) && multiset(part) + multiset(kept) == multiset(level)
    && (forall x :: x in part ==> x.bundle != 0 && x.bundle in ids)
    && (forall x :: x in kept ==> x.bundle == 0 || x.bundle !in ids)
  }

  lemma PickSplitsBy(ids: seq<nat>, level: seq<Item>)
    ensures SplitBy(level, ids, Pick(Bundles(ids), level), Pick(NotBundles(ids), level))
  {
    PickWithin(Bundles(ids), level);
    PickWithin(NotBundles(ids), level);
    PickSplits(ids, level);
  }

  lemma {:induction false} GatherIsFlat(levels: Levels, ids: seq<nat>, a: nat, parts: Levels)
    requires |parts| == |levels| && forall l :: 0 <= l < |parts| ==> parts[l] == Pick(Bundles(ids), levels[l])
    ensures Gather(levels, ids, a) == Flat(parts, a)
    decreases |levels| - a
  {
    if a < |levels| { GatherIsFlat(levels, ids, a + 1, parts); }
  }

  /** What leaves each level. */
  function Parts(levels: Levels, ids: seq<nat>): (r: Levels)
    ensures |r| == |levels|
  {
    seq(|levels|, l requires 0 <= l < |levels| => Pick(Bundles(ids), levels[l]))
  }

  /** What a move does: more urgent levels stay, the tagged tasks of the less urgent ones leave them in order ... */
  lemma MoveSplits(levels: Levels, ids: seq<nat>, p: nat, l: nat)
    requires p < |levels| && l < |levels|
    ensures l < p ==> Moved(levels, ids, p)[l] == levels[l]
    ensures l > p ==> SplitBy(levels[l], ids, Parts(levels, ids)[l], Moved(levels, ids, p)[l])
  {
    if l > p { PickSplitsBy(ids, levels[l]); }
  }

  /** ... and follow the old tasks of the target, level by level. */
  lemma MoveAppends(levels: Levels, ids: seq<nat>, p: nat)
    requires p < |levels|
    ensures Moved(levels, ids, p)[p] == levels[p] + Flat(Parts(levels, ids), p + 1)
    ensures Gather(levels, ids, p + 1) == Flat(Parts(levels, ids), p + 1)
  {
    GatherIsFlat(levels, ids, p + 1, Parts(levels, ids));
  }

  lemma {:induction false} InFlat(parts: Levels, a: nat, l: nat, x: Item)
    requires a <= l < |parts| && x in parts[l]
    ensures x in Flat(parts, a)
    decreases l - a
  {
    if a < l { InFlat(parts, a + 1, l, x); }
  }

  /** Where a waiting task is after a move: in the target if it is tagged with one of the ids and was less urgent, else
      where it was. */
  lemma MoveOf(levels: Levels, ids: seq<nat>, p: nat, l: nat, x: Item)
    requires p < |levels| && l < |levels| && x in levels[l]
    ensures p < l && x.bundle != 0 && x.bundle in ids ==> x in Moved(levels, ids, p)[p] && x !in Moved(levels, ids, p)[l]
    ensures !(p < l && x.bundle != 0 && x.bundle in ids) ==> x in Moved(levels, ids, p)[l]
  {
    var parts := Parts(levels, ids);
    MoveSplits(levels, ids, p, l);
    MoveAppends(levels, ids, p);
    if p < l {
      assert x in multiset(levels[l]);
      assert x in multiset(parts[l]) || x in multiset(Moved(levels, ids, p)[l]);
      if x in parts[l] { InFlat(parts, p + 1, l, x); }
    }
  }

  // ---- sorting ----

  /** Puts x in front of the first task whose key is not smaller. */
  function Insert(x: Item, s: seq<Item>): seq<Item> {
    if s == [] || x.key <= s[0].key then [x] + s else [s[0]] + Insert(x, s[1..])
  }

  function StableSort(s: seq<Item>): seq<Item> {
    if s == [] then [] else Insert(s[0], StableSort(s[1..]))
  }

  predicate Ordered(s: seq<Item>) { forall i, j :: 0 <= i < j < |s| ==> s[i].key <= s[j].key }

  lemma {:induction false} InsertPermutes(x: Item, s: seq<Item>)
    ensures multiset(Insert(x, s)) == multiset{x} + multiset(s)
  {
    if s == [] || x.key <= s[0].key {
    } else {
      InsertPermutes(x, s[1..]);
      assert s == [s[0]] + s[1..];
    }
  }

  lemma PrependOrdered(x: Item, s: seq<Item>)
    requires Ordered(s) && forall y :: y in s ==> x.key <= y.key
    ensures Ordered([x] + s)
  {
  }

  lemma {:induction false} InsertOrdered(x: Item, s: seq<Item>)
    requires Ordered(s)
    ensures Ordered(Insert(x, s))
  {
    if s == [] {
    } else if x.key <= s[0].key {
      forall y | y in s ensures x.key <= y.key { OrderedHead(s, y); }
      PrependOrdered(x, s);
    } else {
      InsertOrdered(x, s[1..]);
      var t := Insert(x, s[1..]);
      forall y | y in t ensures s[0].key <= y.key {
        InsertPermutes(x, s[1..]);
        assert y in multiset(t);
        if y != x { OrderedHead(s, y); }
      }
      PrependOrdered(s[0], t);
    }
  }

  /** A selection whose tasks all have one key does not notice that x moved past smaller keys. */
  lemma {:induction false} InsertKeepsPick(sel: Sel, x: Item, s: seq<Item>)
    requires sel.ByKey? || sel.Untagged?
    ensures Pick(sel, Insert(x, s)) == Single(sel, x) + Pick(sel, s)
  {
    if s == [] || x.key <= s[0].key {
      PickFirst(sel, x, s);
    } else {
      var y, t := s[0], s[1..];
      assert s == [y] + t;
      InsertKeepsPick(sel, x, t);
      PickFirst(sel, y, Insert(x, t));
      PickFirst(sel, y, t);
      Swap(Single(sel, y), Single(sel, x), Pick(sel, t));
    }
  }

  lemma Swap(a: seq<Item>, b: seq<Item>, p: seq<Item>)
    requires a == [] || b == []
    ensures a + (b + p) == b + (a + p)
  {
  }

  /** stable_sort: ordered by key, a permutation, and tasks with one key stay in order. */
  lemma {:induction false} SortIsStable(s: seq<Item>)
    ensures Ordered(StableSort(s))
    ensures multiset(StableSort(s)) == multiset(s)
  {
    if s != [] {
      SortIsStable(s[1..]);
      InsertOrdered(s[0], StableSort(s[1..]));
      InsertPermutes(s[0], StableSort(s[1..]));
      assert s == [s[0]] + s[1..];
    }
  }

  lemma {:induction false} SortKeepsPick(sel: Sel, s: seq<Item>)
    requires sel.ByKey? || sel.Untagged?
    ensures Pick(sel, StableSort(s)) == Pick(sel, s)
  {
    if s != [] {
      SortKeepsPick(sel, s[1..]);
      InsertKeepsPick(sel, s[0], StableSort(s[1..]));
      PickFirst(sel, s[0], s[1..]);
      assert s == [s[0]] + s[1..];
    }
  }

  lemma OrderedHead(s: seq<Item>, x: Item)
    requires Ordered(s) && x in s
    ensures s[0].key <= x.key
  {
    var i :| 0 <= i < |s| && s[i] == x;
    if i > 0 { assert s[0].key <= s[i].key; }
  }

  ghost predicate SameByKey(t: seq<Item>, u: seq<Item>) { forall k :: Pick(ByKey(k), t) == Pick(ByKey(k), u) }

  lemma HeadNotAbove(t: seq<Item>, u: seq<Item>)
    requires SameByKey(t, u) && Ordered(u) && t != []
    ensures u != [] && u[0].key <= t[0].key
  {
    assert Pick(ByKey(t[0].key), t) == Pick(ByKey(t[0].key), u);
    assert t[0] in Pick(ByKey(t[0].key), u);
    OrderedHead(u, t[0]);
  }

  lemma SameHead(x: Item, t: seq<Item>, y: Item, u: seq<Item>)
    requires SameByKey([x] + t, [y] + u) && x.key == y.key
    ensures x == y && SameByKey(t, u)
  {
    forall j ensures Pick(ByKey(j), t) == Pick(ByKey(j), u) { SameHeadAt(x, t, y, u, j); }
    SameHeadAt(x, t, y, u, x.key);
  }

  lemma SameHeadAt(x: Item, t: seq<Item>, y: Item, u: seq<Item>, j: int)
    requires SameByKey([x] + t, [y] + u) && x.key == y.key
    ensures Pick(ByKey(j), t) == Pick(ByKey(j), u)
    ensures j == x.key ==> x == y
  {
    PickFirst(ByKey(j), x, t);
    PickFirst(ByKey(j), y, u);
    assert Pick(ByKey(j), [x] + t) == Pick(ByKey(j), [y] + u);
    var a, b, p, q := Single(ByKey(j), x), Single(ByKey(j), y), Pick(ByKey(j), t), Pick(ByKey(j), u);
    assert |a| == |b| && a + p == b + q;
    assert p == (a + p)[|a|..] && q == (b + q)[|b|..];
    if j == x.key { assert (a + p)[0] == x && (b + q)[0] == y; }
  }

  /** These properties determine the result: whatever else is ordered and keeps each key's tasks in order is the same
      sequence. */
  lemma {:induction false} StableSortIsUnique(t: seq<Item>, u: seq<Item>)
    requires Ordered(t) && Ordered(u) && SameByKey(t, u)
    ensures t == u
    decreases |t|
  {
    if t != [] {
      HeadNotAbove(t, u);
      HeadNotAbove(u, t);
      assert t == [t[0]] + t[1..] && u == [u[0]] + u[1..];
      SameHead(t[0], t[1..], u[0], u[1..]);
      StableSortIsUnique(t[1..], u[1..]);
    } else if u != [] {
      HeadNotAbove(u, t);
    }
  }

  // ---- taking ----

  /** The most urgent non-empty level, LEVELS when there is none. */
  function Urgent(levels: Levels, from: nat): (l: nat)
    ensures from <= |levels| ==> from <= l <= |levels|
    ensures forall i :: from <= i < l && i < |levels| ==> levels[i] == []
    ensures l < |levels| ==> levels[l] != []
    decreases |levels| - from
  {
    if from >= |levels| || levels[from] != [] then from else Urgent(levels, from + 1)
  }

  function Taken(levels: Levels): (r: Levels)
    ensures |r| == |levels|
  {
    var l := Urgent(levels, 0);
    if l < |levels| then levels[l := levels[l][1..]] else levels
  }

  // ---- the object ----

  class Queue {
    var levels: Levels
    var status: Status

    ghost predicate Valid()
      reads this
    {
      |levels| == LEVELS
    }

    constructor ()
      ensures Valid() && status == Created && forall l :: 0 <= l < LEVELS ==> levels[l] == []
    {
      levels := [[], [], [], []];
      status := Created;
    }

    /** Starts the worker; returns false where the source throws. */
    method Init() returns (ok: bool)
      requires Valid()
      modifies this
      ensures Valid() && levels == old(levels)
      ensures ok <==> old(status) in {Created, Running}
      ensures status == if ok then Running else old(status)
    {
      ok := true;
      if status == Running { return; }
      if status != Created { return false; }
      status := Running;
    }

    method Submit(item: Item, priority: int) returns (out: Outcome)
      requires Valid()
      modifies this
      ensures Valid() && status == old(status)
      ensures out == if !GoodPriority(priority) then BadPriority else if status != Running then NotRunning else Ok
      ensures out != Ok ==> levels == old(levels)
      ensures out == Ok ==> levels == old(levels)[priority := old(levels)[priority] + [item]]
    {
      if !(0 <= priority < LEVELS) { return BadPriority; }
      if status != Running { return NotRunning; }
      levels := levels[priority := levels[priority] + [item]];
      return Ok;
    }

    method SetBundlesPriority(ids: seq<nat>, priority: int) returns (out: Outcome, moved: nat)
      requires Valid()
      modifies this
      ensures Valid() && status == old(status)
      ensures out == if GoodPriority(priority) then Ok else BadPriority
      ensures out != Ok ==> levels == old(levels) && moved == 0
      ensures out == Ok ==> levels == Moved(old(levels), ids, priority)
      ensures out == Ok ==> moved == |Gather(old(levels), ids, priority + 1)| == |levels[priority]| - |old(levels)[priority]|
      // a waiting task is in the target if it is tagged and was less urgent, else where it was
      ensures out == Ok ==> forall l, x :: 0 <= l < LEVELS && x in old(levels)[l] ==>
                if priority < l && x.bundle != 0 && x.bundle in ids then x in levels[priority] && x !in levels[l] else x in levels[l]
    {
      if !(0 <= priority < LEVELS) { return BadPriority, 0; }
      moved := 0;
      var level := priority + 1;
      while level < LEVELS
        invariant |levels| == LEVELS && priority < level <= LEVELS && status == old(status)
        invariant Moving(old(levels), levels, ids, priority, level)
        invariant moved + |Gather(old(levels), ids, level)| == |Gather(old(levels), ids, priority + 1)|
      {
        var chosen, kept := Split(levels[level], ids);
        MoveOne(old(levels), levels, ids, priority, level);
        levels := levels[priority := levels[priority] + chosen][level := kept];
        moved := moved + |chosen|;
        level := level + 1;
      }
      MoveEnds(old(levels), levels, ids, priority);
      forall l, x | 0 <= l < LEVELS && x in old(levels)[l]
        ensures if priority < l && x.bundle != 0 && x.bundle in ids then x in levels[priority] && x !in levels[l] else x in levels[l]
      {
        MoveOf(old(levels), ids, priority, l, x);
      }
      return Ok, moved;
    }

    method SortPriorityLevel(priority: int) returns (out: Outcome)
      requires Valid()
      modifies this
      ensures Valid() && status == old(status)
      ensures out == if GoodPriority(priority) then Ok else BadPriority
      ensures out != Ok ==> levels == old(levels)
      ensures out == Ok ==> levels == old(levels)[priority := StableSort(old(levels)[priority])]
    {
      if !(0 <= priority < LEVELS) { return BadPriority; }
      levels := levels[priority := StableSort(levels[priority])];
      return Ok;
    }

    /** The locked section of the worker loop once its wait condition holds: exit, or take a task. */
    method TakeOrExit() returns (exit: bool, item: Item)
      requires Valid() && (status != Running || Urgent(levels, 0) < LEVELS)
      requires status in {Running, Stopping}
      modifies this
      ensures Valid() && status == old(status)
      ensures exit <==> status == Stopping && Urgent(old(levels), 0) == LEVELS
      ensures levels == Taken(old(levels))
      ensures !exit ==> Urgent(old(levels), 0) < LEVELS && item == old(levels)[Urgent(old(levels), 0)][0]
    {
      exit, item := false, Item(0, 0, 0, 0);
      var l := 0;
      while l < LEVELS && levels[l] == []
        invariant 0 <= l <= LEVELS && Urgent(levels, 0) == Urgent(levels, l) && levels == old(levels)
      {
        l := l + 1;
      }
      if l == LEVELS { return true, item; }
      item := levels[l][0];
      levels := levels[l := levels[l][1..]];
    }

    /** The first locked section of shutdown; tells whether this call has to join the worker. */
    method BeginShutdown() returns (join: bool)
      requires Valid()
      modifies this
      ensures Valid() && levels == old(levels)
      ensures join <==> old(status) == Running
      ensures status == match old(status)
                        case Created => Stopped
                        case Running => Stopping
                        case other => other
    {
      join := status == Running;
      if status == Created { status := Stopped; } else if status == Running { status := Stopping; }
    }
  }

  /** The inner loop of set_bundles_priority on one level. */
  method Split(level: seq<Item>, ids: seq<nat>) returns (chosen: seq<Item>, kept: seq<Item>)
    ensures chosen == Pick(Bundles(ids), level)
    ensures kept == Pick(NotBundles(ids), level)
  {
    chosen, kept := [], [];
    var i := 0;
    while i < |level|
      invariant 0 <= i <= |level|
      invariant chosen == Pick(Bundles(ids), level[..i]) && kept == Pick(NotBundles(ids), level[..i])
    {
      assert level[..i + 1][..i] == level[..i];
      if level[i].bundle != 0 && level[i].bundle in ids {
        chosen := chosen + [level[i]];
      } else {
        kept := kept + [level[i]];
      }
      i := i + 1;
    }
    assert level[..i] == level;
  }
}
