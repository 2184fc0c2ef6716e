/** Record (the table of stored groups) and KVStore.evict_lru (the batched eviction loop over it). The table maps a group
    key to its last access and persisted flag; rows later than the cut _evicted_until are resident in memory. */
module EvictLru {
  import opened Arith
  import opened Sets

  type Key = string

  datatype Row = Row(last: real, persisted: bool)

  type Table = map<Key, Row>

  /** An upper bound of a query: `before`, or no bound at all (the largest double). */
  datatype Bound = Below(x: real) | Unbounded

  predicate Under(b: Bound, x: real) { b.Unbounded? || x < b.x }

  function Later(a: real, b: real): real { if a < b then b else a }

  /** The rows of a query: later than `after`, under the bound. */
  function Window(t: Table, after: real, b: Bound): set<Key> { set k | k in t && after < t[k].last && Under(b, t[k].last) }

  function Resident(t: Table, after: real): set<Key> { Window(t, after, Unbounded) }

  /** Rows of w up to and including time x. */
  function Upto(t: Table, w: set<Key>, x: real): set<Key>
    requires w <= t.Keys
  {
    set k | k in w && t[k].last <= x
  }

  function Before(t: Table, w: set<Key>, x: real): set<Key>
    requires w <= t.Keys
  {
    set k | k in w && t[k].last < x
  }

  ghost predicate Distinct(t: Table) { forall j, k :: j in t && k in t && j != k ==> t[j].last != t[k].last }

  // ---- the cut query ----

  /** until is the largest of the `limit` smallest times of w; `after` when there is none. */
  ghost predicate IsCut(t: Table, w: set<Key>, limit: nat, after: real, until: real)
    requires w <= t.Keys
  {
    if w == {} || limit == 0 then until == after
    else
      && (exists k :: k in w && t[k].last == until)
      && |Before(t, w, until)| < limit
      && |Upto(t, w, until)| >= Min(limit, |w|)
  }

  /** A non-empty set of rows has an oldest one. */
  lemma {:induction false} OldestExists(t: Table, w: set<Key>)
    requires w <= t.Keys && w != {}
    ensures exists k :: k in w && forall j :: j in w ==> t[k].last <= t[j].last
    decreases |w|
  {
    var k :| k in w;
    if w - {k} != {} {
      OldestExists(t, w - {k});
      var m :| m in w - {k} && forall j :: j in w - {k} ==> t[m].last <= t[j].last;
      var best := if t[k].last <= t[m].last then k else m;
      forall j | j in w ensures t[best].last <= t[j].last {
        if j != k { assert j in w - {k}; }
      }
    } else {
      assert w == {k};
      assert k in w && forall j :: j in w ==> t[k].last <= t[j].last;
    }
  }

  /** SELECT MAX(last_access) over the oldest `limit` rows of w. */
  method Cut(t: Table, w: set<Key>, limit: nat, after: real) returns (until: real)
    requires w <= t.Keys && forall k :: k in w ==> after < t[k].last
    ensures IsCut(t, w, limit, after, until)
    ensures until >= after
  {
    until := after;
    var rest, n := w, 0;
    while n < limit && rest != {}
      invariant rest <= w && n <= limit && |rest| + n == |w|
      invariant forall k :: k in w - rest ==> t[k].last <= until
      invariant forall k :: k in rest ==> until <= t[k].last
      invariant n == 0 ==> until == after && rest == w
      invariant n > 0 ==> (exists k :: k in w && t[k].last == until) && until > after && |Before(t, w, until)| < n
    {
      OldestExists(t, rest);
      var k :| k in rest && forall j :: j in rest ==> t[k].last <= t[j].last;
      BeforeNext(t, w, rest, k, n);
      until := t[k].last;
      rest := rest - {k};
      n := n + 1;
    }
    CutEnds(t, w, rest, n, limit, after, until);
  }

  lemma BeforeNext(t: Table, w: set<Key>, rest: set<Key>, k: Key, n: nat)
    requires w <= t.Keys && rest <= w && |rest| + n == |w| && k in rest && forall j :: j in rest ==> t[k].last <= t[j].last
    ensures |Before(t, w, t[k].last)| <= n
  {
    assert Before(t, w, t[k].last) <= w - rest;
    SizeOfPart(w, rest);
    SizeAtMost(Before(t, w, t[k].last), w - rest);
  }

  lemma CutEnds(t: Table, w: set<Key>, rest: set<Key>, n: nat, limit: nat, after: real, until: real)
    requires w <= t.Keys && rest <= w && n <= limit && |rest| + n == |w| && (n == limit || rest == {})
    requires forall k :: k in w - rest ==> t[k].last <= until
    requires n == 0 ==> until == after
    requires n > 0 ==> (exists k :: k in w && t[k].last == until) && |Before(t, w, until)| < n
    ensures IsCut(t, w, limit, after, until)
  {
    if w != {} && limit != 0 {
      SizeOfPart(w, rest);
      SizeAtMost(w - rest, Upto(t, w, until));
    }
  }

  // ---- oldest rows with ties ----

  lemma UptoNested(t: Table, w: set<Key>, x: real, y: real)
    requires w <= t.Keys && x <= y
    ensures Upto(t, w, x) <= Upto(t, w, y) && |Upto(t, w, x)| <= |Upto(t, w, y)|
  {
    SizeAtMost(Upto(t, w, x), Upto(t, w, y));
  }

  /** The rows of w up to time u are the fewest, closed under equal times, that are at least n oldest rows. */
  ghost predicate Least(t: Table, w: set<Key>, n: int, u: real)
    requires w <= t.Keys
  {
    |Upto(t, w, u)| >= n && forall x :: |Upto(t, w, x)| >= n ==> Upto(t, w, u) <= Upto(t, w, x)
  }

  lemma LeastUnique(t: Table, w: set<Key>, n: int, u: real, v: real)
    requires w <= t.Keys && Least(t, w, n, u) && Least(t, w, n, v)
    ensures Upto(t, w, u) == Upto(t, w, v)
  {
  }

  /** A group of rows with one time x covers position n of the oldest-first order and goes beyond it. */
  ghost predicate Straddles(t: Table, w: set<Key>, n: int, x: real)
    requires w <= t.Keys
  {
    |Before(t, w, x)| < n < |Upto(t, w, x)|
  }

  lemma {:induction false} NewestExists(t: Table, w: set<Key>)
    requires w <= t.Keys && w != {}
    ensures exists k :: k in w && forall j :: j in w ==> t[j].last <= t[k].last
    decreases |w|
  {
    var k :| k in w;
    if w - {k} != {} {
      NewestExists(t, w - {k});
      var m :| m in w - {k} && forall j :: j in w - {k} ==> t[j].last <= t[m].last;
      var best := if t[m].last <= t[k].last then k else m;
      forall j | j in w ensures t[j].last <= t[best].last {
        if j != k { assert j in w - {k}; }
      }
    } else {
      assert w == {k};
      assert k in w && forall j :: j in w ==> t[j].last <= t[k].last;
    }
  }

  /** The rows before x are themselves an oldest prefix. */
  lemma BeforeIsUpto(t: Table, w: set<Key>, x: real) returns (y: real)
    requires w <= t.Keys
    ensures y < x && Upto(t, w, y) == Before(t, w, x)
  {
    var b := Before(t, w, x);
    if b == {} {
      y := x - 1.0;
      forall k | k in w ensures t[k].last >= x { assert k !in b; }
    } else {
      NewestExists(t, b);
      var k :| k in b && forall j :: j in b ==> t[j].last <= t[k].last;
      y := t[k].last;
      forall j | j in w ensures j in Upto(t, w, y) <==> j in b { }
    }
  }

  /** The fewest rows are more than n exactly when rows with equal times straddle position n. */
  lemma LeastSize(t: Table, w: set<Key>, n: int, u: real)
    requires w <= t.Keys && Least(t, w, n, u) && n >= 0
    ensures |Upto(t, w, u)| > n <==> exists x :: Straddles(t, w, n, x)
  {
    if |Upto(t, w, u)| > n {
      var x := LastTime(t, w, u);
      LastIsBefore(t, w, n, u, x);
      assert Straddles(t, w, n, x);
    }
    if x :| Straddles(t, w, n, x) {
      if u < x {
        assert Upto(t, w, u) <= Before(t, w, x);
        SizeAtMost(Upto(t, w, u), Before(t, w, x));
      } else {
        UptoNested(t, w, x, u);
      }
    }
  }

  lemma LastTime(t: Table, w: set<Key>, u: real) returns (x: real)
    requires w <= t.Keys && Upto(t, w, u) != {}
    ensures x <= u && Upto(t, w, x) == Upto(t, w, u) && exists k :: k in w && t[k].last == x
  {
    NewestExists(t, Upto(t, w, u));
    var k :| k in Upto(t, w, u) && forall j :: j in Upto(t, w, u) ==> t[j].last <= t[k].last;
    x := t[k].last;
    forall j | j in w ensures j in Upto(t, w, x) <==> j in Upto(t, w, u) { }
  }

  lemma LastIsBefore(t: Table, w: set<Key>, n: int, u: real, x: real)
    requires w <= t.Keys && Least(t, w, n, u) && x <= u && exists k :: k in w && t[k].last == x
    ensures |Before(t, w, x)| < n
  {
    var y := BeforeIsUpto(t, w, x);
    var k :| k in w && t[k].last == x;
    assert k in Upto(t, w, u) && k !in Upto(t, w, y);
  }

  /** Distinct times never straddle. */
  lemma DistinctDoesNotStraddle(t: Table, w: set<Key>, n: int, x: real)
    requires w <= t.Keys && Distinct(t)
    ensures !Straddles(t, w, n, x)
  {
    if k :| k in w && t[k].last == x {
      assert Upto(t, w, x) == Before(t, w, x) + {k};
    } else {
      assert Upto(t, w, x) == Before(t, w, x);
    }
  }

  /** The cut query takes the fewest rows that are at least min(limit, |w|) oldest ones. */
  lemma CutIsLeast(t: Table, w: set<Key>, limit: nat, after: real, until: real)
    requires w <= t.Keys && IsCut(t, w, limit, after, until) && forall k :: k in w ==> after < t[k].last
    ensures Least(t, w, Min(limit, |w|), until)
  {
    if w == {} || limit == 0 {
      assert Upto(t, w, until) == {};
    } else {
      var k :| k in w && t[k].last == until;
      forall x | |Upto(t, w, x)| >= Min(limit, |w|) ensures Upto(t, w, until) <= Upto(t, w, x) {
        if x < until { EarlierIsFewer(t, w, limit, until, x, k); }
      }
    }
  }

  lemma EarlierIsFewer(t: Table, w: set<Key>, limit: nat, until: real, x: real, k: Key)
    requires w <= t.Keys && x < until && k in w && t[k].last == until && |Before(t, w, until)| < limit
    ensures |Upto(t, w, x)| < Min(limit, |w|)
  {
    var b := Before(t, w, until);
    SizeAtMost(Upto(t, w, x), b);
    SizeAtMost(b, w - {k});
  }

  /** So a cut exceeds its limit exactly when equal times straddle it. */
  lemma CutExceeds(t: Table, w: set<Key>, limit: nat, after: real, until: real)
    requires w <= t.Keys && IsCut(t, w, limit, after, until) && forall k :: k in w ==> after < t[k].last
    ensures |Upto(t, w, until)| > Min(limit, |w|) <==> exists x :: Straddles(t, w, limit, x)
  {
    CutIsLeast(t, w, limit, after, until);
    LeastSize(t, w, Min(limit, |w|), until);
    forall x ensures Straddles(t, w, Min(limit, |w|), x) <==> Straddles(t, w, limit, x) {
      SizeAtMost(Upto(t, w, x), w);
    }
  }

  // ---- Record.evict ----

  /** What one decision takes: the rows up to the later of the lease cut and the forced cut. */
  ghost predicate Decision(t: Table, after: real, before: real, max: nat, min: nat, keys: set<Key>, until: real) {
    exists lease, forced :: DecisionBy(t, after, before, max, min, keys, until, lease, forced)
  }

  ghost predicate DecisionBy(t: Table, after: real, before: real, max: nat, min: nat, keys: set<Key>, until: real,
                             lease: real, forced: real) {
    && IsCut(t, Window(t, after, Below(before)), max, after, lease)
    && (if min > 0 then IsCut(t, Resident(t, after), Min(min, max), after, forced) else forced == after)
    && until == Later(lease, forced)
    && keys == Upto(t, Resident(t, after), until)
  }

  /** How many rows a decision takes from `resident` rows of which `expired` are past their lease. */
  function Quota(max: nat, min: nat, expired: nat, resident: nat): int {
    Max(Min(max, expired), Min(Min(min, max), resident))
  }

  function Expired(t: Table, after: real, before: real): nat { |Window(t, after, Below(before))| }

  /** What one decision asks for: rows of the resident ones, at least. */
  function Share(t: Table, after: real, before: real, max: nat, min: nat): int {
    Quota(max, min, Expired(t, after, before), |Resident(t, after)|)
  }

  lemma LeasePart(t: Table, after: real, before: real, max: nat, lease: real)
    requires IsCut(t, Window(t, after, Below(before)), max, after, lease)
    ensures Least(t, Resident(t, after), Min(max, Expired(t, after, before)), lease)
  {
    var w, r, n := Window(t, after, Below(before)), Resident(t, after), Min(max, Expired(t, after, before));
    CutIsLeast(t, w, max, after, lease);
    if w == {} || max == 0 {
      assert Upto(t, r, lease) == {};
    } else {
      assert lease < before;
      assert Upto(t, r, lease) == Upto(t, w, lease);
      forall x | |Upto(t, r, x)| >= n ensures Upto(t, r, lease) <= Upto(t, r, x) {
        if x < lease { assert Upto(t, r, x) == Upto(t, w, x); }
      }
    }
  }

  lemma ForcedPart(t: Table, after: real, max: nat, min: nat, forced: real)
    requires if min > 0 then IsCut(t, Resident(t, after), Min(min, max), after, forced) else forced == after
    ensures Least(t, Resident(t, after), Min(Min(min, max), |Resident(t, after)|), forced)
  {
    if min > 0 {
      CutIsLeast(t, Resident(t, after), Min(min, max), after, forced);
    } else {
      assert Upto(t, Resident(t, after), forced) == {};
    }
  }

  /** The later of two such cuts serves the larger of the two demands. */
  lemma LeastOfBoth(t: Table, w: set<Key>, m: int, n: int, u: real, v: real)
    requires w <= t.Keys && Least(t, w, m, u) && Least(t, w, n, v)
    ensures Least(t, w, Max(m, n), Later(u, v))
  {
    if u < v { UptoNested(t, w, u, v); } else { UptoNested(t, w, v, u); }
  }

  /** A decision takes the fewest oldest resident rows, closed under equal times, that are at least
      max(min(max, expired), min(min, max, resident)) many. */
  lemma DecisionIsLeast(t: Table, after: real, before: real, max: nat, min: nat, keys: set<Key>, until: real)
    requires Decision(t, after, before, max, min, keys, until)
    ensures keys == Upto(t, Resident(t, after), until)
    ensures Least(t, Resident(t, after), Share(t, after, before, max, min), until)
  {
    var lease, forced :| DecisionBy(t, after, before, max, min, keys, until, lease, forced);
    LeasePart(t, after, before, max, lease);
    ForcedPart(t, after, max, min, forced);
    LeastOfBoth(t, Resident(t, after), Min(max, Expired(t, after, before)),
                Min(Min(min, max), |Resident(t, after)|), lease, forced);
  }

  /** It takes more than that exactly when equal times straddle that position; never when times are distinct. */
  lemma DecisionExceeds(t: Table, after: real, before: real, max: nat, min: nat, keys: set<Key>, until: real)
    requires Decision(t, after, before, max, min, keys, until)
    ensures |keys| > Share(t, after, before, max, min) <==>
              exists x :: Straddles(t, Resident(t, after), Share(t, after, before, max, min), x)
    ensures |keys| >= Share(t, after, before, max, min)
    ensures Distinct(t) ==> |keys| == Share(t, after, before, max, min)
  {
    var w, n := Resident(t, after), Share(t, after, before, max, min);
    DecisionIsLeast(t, after, before, max, min, keys, until);
    LeastSize(t, w, n, until);
    if Distinct(t) {
      forall x ensures !Straddles(t, w, n, x) { DistinctDoesNotStraddle(t, w, n, x); }
    }
  }

  /** DELETE of the unpersisted rows among `gone`. */
  function Pruned(t: Table, gone: set<Key>): Table {
    map k | k in t && !(k in gone && !t[k].persisted) :: t[k]
  }

  /** Rows at or before the new cut are no longer resident, whether they were deleted or not. */
  lemma ResidentAfter(t: Table, after: real, until: real)
    requires after <= until
    ensures var gone := Upto(t, Resident(t, after), until);
            Resident(Pruned(t, gone), until) == Resident(t, after) - gone
  {
  }

  /** t' is t without the rows in the cut's range that are not persisted; every other row is as it was. */
  ghost predicate Swept(t: Table, after: real, until: real, t': Table) {
    && (forall k :: k in t' ==> k in t && t'[k] == t[k])
    && (forall k :: k in t ==> (k !in t' <==> after < t[k].last <= until && !t[k].persisted))
  }

  /** t is `was` with a fresh unpersisted row for each of the keys, stamped `now` plus `step` times its last place. */
  ghost predicate Submitted(was: Table, t: Table, keys: seq<Key>, now: real, step: real) {
    && (forall k :: k in t <==> k in was || k in keys)
    && (forall k :: k in was && k !in keys ==> t[k] == was[k])
    && (forall j :: 0 <= j < |keys| ==> keys[j] in t && (LastPlace(keys, j) ==> t[keys[j]] == Row(Stamp(now, j, step), false)))
  }

  /** Key j does not come again. */
  ghost predicate LastPlace(keys: seq<Key>, j: nat)
    requires j < |keys|
  {
    forall i :: j < i < |keys| ==> keys[i] != keys[j]
  }

  ghost predicate DistinctBelow(t: Table, x: real) { Distinct(t) && forall k :: k in t ==> t[k].last < x }

  lemma SubmitOne(was: Table, t: Table, keys: seq<Key>, j: nat, now: real, step: real)
    requires j < |keys| && Submitted(was, t, keys[..j], now, step)
    ensures Submitted(was, t[keys[j] := Row(Stamp(now, j, step), false)], keys[..j + 1], now, step)
  {
    var a, b := keys[..j], keys[..j + 1];
    assert b == a + [keys[j]];
    var t' := t[keys[j] := Row(Stamp(now, j, step), false)];
    forall i | 0 <= i < |b| ensures b[i] in t' && (LastPlace(b, i) ==> t'[b[i]] == Row(Stamp(now, i, step), false)) {
      if i < j {
        assert a[i] in t && a[i] == b[i];
        if LastPlace(b, i) { LastPlaceShrinks(keys, j, i); }
      }
    }
  }

  lemma LastPlaceShrinks(keys: seq<Key>, j: nat, i: nat)
    requires i < j < |keys| && LastPlace(keys[..j + 1], i)
    ensures LastPlace(keys[..j], i) && keys[i] != keys[j]
  {
    assert keys[..j + 1][j] == keys[j];
    forall x | i < x < j ensures keys[..j][x] != keys[..j][i] { assert keys[..j + 1][x] == keys[..j][x]; }
  }

  lemma StampKeepsDistinct(t: Table, k: Key, stamp: real, next: real)
    requires DistinctBelow(t, stamp) && stamp < next
    ensures DistinctBelow(t[k := Row(stamp, false)], next)
  {
  }

  class Record {
    var table: Table

    constructor ()
      ensures table == map[]
    {
      table := map[];
    }

    /** INSERT OR REPLACE of every key with persisted = 0; `now` is read once, rows are `step` apart. */
    method Submit(keys: seq<Key>, now: real, step: real)
      requires step > 0.0
      modifies this
      ensures Submitted(old(table), table, keys, now, step)
      ensures DistinctBelow(old(table), now) ==> Distinct(table)
    {
      ghost var unique := DistinctBelow(table, now);
      var j := 0;
      while j < |keys|
        invariant 0 <= j <= |keys|
        invariant Submitted(old(table), table, keys[..j], now, step)
        invariant unique ==> DistinctBelow(table, Stamp(now, j, step))
      {
        var stamp := Stamp(now, j, step);
        StampsRise(now, j, step);
        SubmitOne(old(table), table, keys, j, now, step);
        if unique { StampKeepsDistinct(table, keys[j], stamp, Stamp(now, j + 1, step)); }
        table := table[keys[j] := Row(stamp, false)];
        j := j + 1;
      }
      assert keys[..j] == keys;
    }

    /** One eviction decision; returns the evicted keys and the new cut. */
    method Evict(after: real, before: real, max: nat, min: nat) returns (keys: set<Key>, until: real)
      modifies this
      ensures Decision(old(table), after, before, max, min, keys, until)
      ensures after <= until
      ensures table == Pruned(old(table), keys) && Swept(old(table), after, until, table)
    {
      var lease := Cut(table, Window(table, after, Below(before)), max, after);
      var forced := after;
      if min > 0 {
        forced := Cut(table, Resident(table, after), Min(min, max), after);
      }
      until := Later(lease, forced);
      keys := {};
      if until > after {
        keys := Upto(table, Resident(table, after), until);
        table := Pruned(table, keys);
      } else {
        assert Upto(table, Resident(table, after), until) == {};
        assert Pruned(table, {}) == table;
      }
      assert DecisionBy(old(table), after, before, max, min, keys, until, lease, forced);
    }
  }

  function Stamp(now: real, j: nat, step: real): real { now + j as real * step }

  /** The first stamp is `now`, the others are `step` apart. */
  lemma StampsAre(now: real, j: nat, step: real)
    ensures Stamp(now, 0, step) == now && Stamp(now, j + 1, step) == Stamp(now, j, step) + step
  {
    assert (j + 1) as real * step == j as real * step + step;
  }

  lemma StampsRise(now: real, j: nat, step: real)
    requires step > 0.0
    ensures now <= Stamp(now, j, step) < Stamp(now, j + 1, step)
  {
    assert (j + 1) as real * step == j as real * step + step;
  }

  // ---- KVStore.evict_lru ----

  const BATCH := 16384

  /** What is left of the expired rows after an oldest prefix was taken. */
  lemma ExpiredLeft(t: Table, after: real, until: real, before: real)
    requires after <= until
    ensures var gone := Upto(t, Resident(t, after), until);
            Expired(Pruned(t, gone), until, before) == Max(0, Expired(t, after, before) - |gone|)
  {
    var w := Resident(t, after);
    var gone, x := Upto(t, w, until), Window(t, after, Below(before));
    assert Window(Pruned(t, gone), until, Below(before)) == x - gone;
    if until < before {
      assert gone <= x;
      SizeOfPart(x, gone);
    } else {
      assert x <= gone;
      SizeAtMost(x, gone);
      assert x - gone == {};
    }
  }

  /** Later readings of the clock only ask for more. */
  lemma ShareRises(t: Table, after: real, b: real, c: real, max: nat, min: nat)
    requires b <= c
    ensures 0 <= Share(t, after, b, max, min) <= Share(t, after, c, max, min) <= max
    ensures Expired(t, after, b) <= |Resident(t, after)|
  {
    SizeAtMost(Window(t, after, Below(b)), Window(t, after, Below(c)));
    SizeAtMost(Window(t, after, Below(b)), Resident(t, after));
  }

  /** One more decision extends the oldest prefix. */
  lemma PrefixGrows(t: Table, after: real, u: real, v: real)
    requires after <= u <= v
    ensures var w := Resident(t, after);
            var gone := Upto(t, w, u);
            var more := Upto(Pruned(t, gone), Resident(Pruned(t, gone), u), v);
            && gone + more == Upto(t, w, v) && gone !! more
            && Pruned(Pruned(t, gone), more) == Pruned(t, gone + more)
  {
    ResidentAfter(t, after, u);
  }

  lemma LeastSame(t: Table, t': Table, w: set<Key>, n: int, u: real)
    requires w <= t.Keys && w <= t'.Keys && (forall k :: k in w ==> t[k] == t'[k]) && Least(t', w, n, u)
    ensures Least(t, w, n, u)
  {
    forall x ensures Upto(t, w, x) == Upto(t', w, x) { }
  }

  /** Taking the fewest rows that are at least q of what is left, after a prefix, is taking the fewest that are at least
      q more than that prefix. */
  lemma LeastExtends(t: Table, w: set<Key>, u: real, v: real, q: int)
    requires w <= t.Keys && u <= v && q >= 0 && Least(t, w - Upto(t, w, u), q, v)
    ensures Least(t, w, |Upto(t, w, u)| + q, v)
  {
    var gone := Upto(t, w, u);
    var rest := w - gone;
    UptoSplits(t, w, u, v);
    forall x | |Upto(t, w, x)| >= |gone| + q ensures Upto(t, w, v) <= Upto(t, w, x) {
      if x < u {
        UptoNested(t, w, x, u);
        SizeAtMost(Upto(t, w, x), gone);
        assert Upto(t, rest, x) == {};
      } else {
        UptoSplits(t, w, u, x);
      }
    }
  }

  lemma UptoSplits(t: Table, w: set<Key>, u: real, v: real)
    requires w <= t.Keys && u <= v
    ensures var gone := Upto(t, w, u);
            Upto(t, w, v) == gone + Upto(t, w - gone, v) && |Upto(t, w, v)| == |gone| + |Upto(t, w - gone, v)|
  {
    var gone := Upto(t, w, u);
    assert Upto(t, w, v) == gone + Upto(t, w - gone, v);
    assert gone !! Upto(t, w - gone, v);
  }

  /** Batch demands add up: a batch never asks for more than one decision would still have to take, and it asks for
      nothing exactly when that has been reached. */
  lemma QuotaStep(max: nat, min: nat, e: nat, x: nat, r: nat)
    requires min <= max && e < max && e <= r && x <= r
    ensures var n := Quota(Min(BATCH, max - e), Max(0, Min(BATCH, min - e)), Max(0, x - e), r - e);
            && n >= 0
            && (e < Quota(max, min, x, r) ==> 0 < n && e + n <= Quota(max, min, x, r))
            && (e >= Quota(max, min, x, r) ==> n == 0)
  {
  }

  /** What evict_lru has taken so far: an oldest prefix of the rows that were resident. */
  ghost predicate Progress(t0: Table, after0: real, t: Table, until: real, gone: set<Key>) {
    && after0 <= until
    && gone == Upto(t0, Resident(t0, after0), until)
    && t == Pruned(t0, gone)
  }

  /** Seen row by row: exactly the unpersisted rows of the range are deleted. */
  lemma ProgressSweeps(t0: Table, after0: real, t: Table, until: real, gone: set<Key>)
    requires Progress(t0, after0, t, until, gone)
    ensures Swept(t0, after0, until, t)
  {
  }

  /** The limits evict_lru passes when e rows are gone. */
  function BatchMax(max: nat, e: nat): nat
    requires e < max
  {
    Min(BATCH, max - e)
  }

  function BatchMin(max: nat, min: nat, e: nat): nat { Max(0, Min(BATCH, Min(min, max) - e)) }

  /** One round of the loop: the rows gone are the fewest that are at least as many as before plus the batch's demand. */
  lemma Round(t0: Table, after0: real, t: Table, until: real, gone: set<Key>, before: real, max: nat, min: nat,
              keys: set<Key>, next: real)
    requires Progress(t0, after0, t, until, gone) && until <= next && Decision(t, until, before, max, min, keys, next)
    ensures Progress(t0, after0, Pruned(t, keys), next, gone + keys) && |gone + keys| == |gone| + |keys|
    ensures |gone| <= |Resident(t0, after0)|
    ensures var q := Quota(max, min, Max(0, Expired(t0, after0, before) - |gone|), |Resident(t0, after0)| - |gone|);
            Least(t0, Resident(t0, after0), |gone| + q, next) && |keys| >= q && (q == 0 ==> keys == {})
  {
    DecisionIsLeast(t, until, before, max, min, keys, next);
    ExpiredLeft(t0, after0, until, before);
    ResidentAfter(t0, after0, until);
    SizeOfPart(Resident(t0, after0), gone);
    PrefixGrows(t0, after0, until, next);
    var q := Share(t, until, before, max, min);
    NothingWhenZero(t, Resident(t, until), q, next);
    LeastSame(t0, t, Resident(t, until), q, next);
    LeastExtends(t0, Resident(t0, after0), until, next, q);
  }

  lemma NothingWhenZero(t: Table, w: set<Key>, n: int, u: real)
    requires w <= t.Keys && Least(t, w, n, u)
    ensures n <= 0 ==> Upto(t, w, u) == {}
  {
    if w != {} {
      OldestExists(t, w);
      var k :| k in w && forall j :: j in w ==> t[k].last <= t[j].last;
      assert Upto(t, w, t[k].last - 1.0) == {};
    }
  }

  /** The demand m met so far grows at most to what one decision at the current reading asks for; when a batch is empty, all
      of that has been met. */
  lemma RoundDemand(t0: Table, after0: real, t: Table, until: real, gone: set<Key>, before: real, max: nat, min: nat,
                    keys: set<Key>, next: real, m: int) returns (m': int)
    requires Progress(t0, after0, t, until, gone) && until <= next && |gone| < max
    requires Least(t0, Resident(t0, after0), m, until)
    requires Decision(t, until, before, BatchMax(max, |gone|), BatchMin(max, min, |gone|), keys, next)
    ensures Progress(t0, after0, Pruned(t, keys), next, gone + keys) && |gone + keys| == |gone| + |keys|
    ensures Least(t0, Resident(t0, after0), m', next) && m' <= Max(m, Share(t0, after0, before, max, min))
    ensures keys == {} ==> |gone| >= Share(t0, after0, before, max, min)
  {
    var w, x := Resident(t0, after0), Expired(t0, after0, before);
    Round(t0, after0, t, until, gone, before, BatchMax(max, |gone|), BatchMin(max, min, |gone|), keys, next);
    ShareRises(t0, after0, before, before, max, min);
    QuotaStep(max, Min(min, max), |gone|, x, |w|);
    if |gone| < Share(t0, after0, before, max, min) {
      m' := |gone| + Quota(BatchMax(max, |gone|), BatchMin(max, min, |gone|), Max(0, x - |gone|), |w| - |gone|);
    } else {
      m' := m;
      assert gone + keys == gone;
    }
  }

  /** Demand met within the share, and the share reached: the rows gone are those of the whole share. */
  lemma DemandMet(t: Table, w: set<Key>, m: int, n: int, u: real)
    requires w <= t.Keys && Least(t, w, m, u) && m <= n <= |Upto(t, w, u)|
    ensures Least(t, w, n, u)
  {
  }

  // ---- the loop, with other users of the table ----

  /** One decision of the loop: the table it saw, its arguments and its result. */
  datatype Turn = Turn(table: Table, after: real, before: real, max: nat, min: nat, keys: set<Key>, until: real)

  /** Rows taken in the first n turns. */
  function Taken(turns: seq<Turn>, n: nat): nat
    requires n <= |turns|
  {
    if n == 0 then 0 else Taken(turns, n - 1) + |turns[n - 1].keys|
  }

  /** Turn i is a decision with the limits that the rows taken before it leave, starting at the cut of the turn before. */
  ghost predicate TurnOk(turns: seq<Turn>, i: nat, start: real, max: nat, min: nat, clock: nat -> real)
    requires i < |turns|
  {
    var r := turns[i];
    && r.after == (if i == 0 then start else turns[i - 1].until) <= r.until && r.before == clock(i)
    && Taken(turns, i) < max && r.max == BatchMax(max, Taken(turns, i)) && r.min == BatchMin(max, min, Taken(turns, i))
    && Decision(r.table, r.after, r.before, r.max, r.min, r.keys, r.until)
  }

  /** The limits of a turn: batches of at most 16384 rows, within what the rows taken before it leave. */
  lemma TurnLimits(turns: seq<Turn>, i: nat, start: real, max: nat, min: nat, clock: nat -> real)
    requires i < |turns| && TurnOk(turns, i, start, max, min, clock)
    ensures var left, due := max - Taken(turns, i), Min(min, max) - Taken(turns, i);
            && 0 < left && turns[i].max == (if left < 16384 then left else 16384)
            && turns[i].min == (if due < 0 then 0 else if due < 16384 then due else 16384)
  {
  }

  ghost predicate TurnsOk(turns: seq<Turn>, start: real, max: nat, min: nat, clock: nat -> real) {
    forall i: nat :: i < |turns| ==> TurnOk(turns, i, start, max, min, clock)
  }

  lemma {:induction false} TakenPrefix(turns: seq<Turn>, r: Turn, n: nat)
    requires n <= |turns|
    ensures Taken(turns + [r], n) == Taken(turns, n)
  {
    if n > 0 { TakenPrefix(turns, r, n - 1); }
  }

  lemma AddTurn(turns: seq<Turn>, r: Turn, start: real, max: nat, min: nat, clock: nat -> real)
    requires TurnsOk(turns, start, max, min, clock)
    requires r.after == (if turns == [] then start else turns[|turns| - 1].until) <= r.until && r.before == clock(|turns|)
    requires Taken(turns, |turns|) < max && r.max == BatchMax(max, Taken(turns, |turns|))
    requires r.min == BatchMin(max, min, Taken(turns, |turns|))
    requires Decision(r.table, r.after, r.before, r.max, r.min, r.keys, r.until)
    ensures TurnsOk(turns + [r], start, max, min, clock)
    ensures Taken(turns + [r], |turns| + 1) == Taken(turns, |turns|) + |r.keys|
  {
    var all := turns + [r];
    TakenPrefix(turns, r, |turns|);
    forall i: nat | i < |all| ensures TurnOk(all, i, start, max, min, clock) {
      if i < |turns| {
        assert TurnOk(turns, i, start, max, min, clock);
        TakenPrefix(turns, r, i);
      }
    }
  }

  /** The state of the loop when nobody else uses the table: m rows of the demand have been met. */
  ghost predicate Alone(t0: Table, after0: real, t: Table, until: real, gone: set<Key>, evicted: nat, m: int) {
    Progress(t0, after0, t, until, gone) && |gone| == evicted && Least(t0, Resident(t0, after0), m, until)
  }

  lemma AloneStart(t: Table, after: real)
    ensures Alone(t, after, t, after, {}, 0, 0)
  {
    assert Upto(t, Resident(t, after), after) == {};
    assert Pruned(t, {}) == t;
  }

  lemma AloneEnds(t0: Table, after0: real, t: Table, until: real, gone: set<Key>, evicted: nat, m: int, n: int)
    requires Alone(t0, after0, t, until, gone, evicted, m) && m <= n && (n <= evicted || n == m)
    ensures Swept(t0, after0, until, t) && Least(t0, Resident(t0, after0), n, until)
  {
    ProgressSweeps(t0, after0, t, until, gone);
    if n <= evicted { DemandMet(t0, Resident(t0, after0), m, n, until); }
  }

  ghost predicate Rising(clock: nat -> real) { forall i, j :: i <= j ==> clock(i) <= clock(j) }

  /** Nobody else touches the table. */
  ghost predicate Quiet(others: (nat, Table) -> Table) { forall i, t :: others(i, t) == t }

  /** The turns so far, the rows they took and the cut they reached. */
  ghost predicate Traced(turns: seq<Turn>, rounds: nat, start: real, until: real, max: nat, min: nat, clock: nat -> real, evicted: nat) {
    && |turns| == rounds && TurnsOk(turns, start, max, min, clock) && evicted == Taken(turns, rounds)
    && until == (if rounds == 0 then start else turns[rounds - 1].until) >= start
  }

  /** The table that turn i leaves behind, or the first one finds. */
  function Left(turns: seq<Turn>, i: nat, first: Table): Table
    requires i <= |turns|
  {
    if i == 0 then first else Pruned(turns[i - 1].table, turns[i - 1].keys)
  }

  /** Every turn saw what others had made of the table the turn before left, and found the switch on. */
  ghost predicate Chained(turns: seq<Turn>, first: Table, others: (nat, Table) -> Table, on: nat -> bool) {
    forall i: nat :: i < |turns| ==> Linked(turns, i, first, others, on)
  }

  ghost predicate Linked(turns: seq<Turn>, i: nat, first: Table, others: (nat, Table) -> Table, on: nat -> bool)
    requires i < |turns|
  {
    on(i) && turns[i].table == others(i, Left(turns, i, first))
  }

  lemma LeftPrefix(turns: seq<Turn>, r: Turn, i: nat, first: Table)
    requires i <= |turns|
    ensures Left(turns + [r], i, first) == Left(turns, i, first)
  {
  }

  lemma AddChained(turns: seq<Turn>, r: Turn, first: Table, others: (nat, Table) -> Table, on: nat -> bool)
    requires Chained(turns, first, others, on) && on(|turns|) && r.table == others(|turns|, Left(turns, |turns|, first))
    ensures Chained(turns + [r], first, others, on)
  {
    var all := turns + [r];
    forall i: nat | i < |all| ensures Linked(all, i, first, others, on) {
      LeftPrefix(turns, r, i, first);
      if i < |turns| { assert Linked(turns, i, first, others, on); }
    }
  }

  /** What the first n turns took. */
  function AllKeys(turns: seq<Turn>, n: nat): set<Key>
    requires n <= |turns|
  {
    if n == 0 then {} else AllKeys(turns, n - 1) + turns[n - 1].keys
  }

  lemma {:induction false} AllKeysPrefix(turns: seq<Turn>, r: Turn, n: nat)
    requires n <= |turns|
    ensures AllKeys(turns + [r], n) == AllKeys(turns, n)
  {
    if n > 0 { AllKeysPrefix(turns, r, n - 1); }
  }

  /** The turns, the table they left and the keys they took. */
  ghost predicate Story(turns: seq<Turn>, first: Table, others: (nat, Table) -> Table, on: nat -> bool, table: Table, gone: set<Key>) {
    && Chained(turns, first, others, on) && table == Left(turns, |turns|, first) && gone == AllKeys(turns, |turns|)
  }

  lemma AddStory(turns: seq<Turn>, r: Turn, first: Table, others: (nat, Table) -> Table, on: nat -> bool, table: Table, gone: set<Key>)
    requires Story(turns, first, others, on, table, gone) && on(|turns|) && r.table == others(|turns|, table)
    ensures Story(turns + [r], first, others, on, Pruned(r.table, r.keys), gone + r.keys)
  {
    AddChained(turns, r, first, others, on);
    AllKeysPrefix(turns, r, |turns|);
  }

  /** What one decision asks for at the last reading of the clock. */
  function Demand(t: Table, after: real, rounds: nat, max: nat, min: nat, clock: nat -> real): int {
    if rounds == 0 then 0 else Share(t, after, clock(rounds - 1), max, min)
  }

  /** The most that one decision asks for at any of the readings. */
  function Peak(t: Table, after: real, rounds: nat, max: nat, min: nat, clock: nat -> real): int {
    if rounds == 0 then 0
    else Max(Peak(t, after, rounds - 1, max, min, clock), Share(t, after, clock(rounds - 1), max, min))
  }

  /** If the clock does not go back, that is at the last one. */
  lemma {:induction false} PeakIsLast(t: Table, after: real, rounds: nat, max: nat, min: nat, clock: nat -> real)
    requires Rising(clock)
    ensures Peak(t, after, rounds, max, min, clock) == Demand(t, after, rounds, max, min, clock)
  {
    DemandBound(t, after, rounds, max, min, clock);
    if rounds > 0 {
      PeakIsLast(t, after, rounds - 1, max, min, clock);
      if rounds > 1 { ShareRises(t, after, clock(rounds - 2), clock(rounds - 1), max, min); }
    }
  }

  lemma DemandBound(t: Table, after: real, rounds: nat, max: nat, min: nat, clock: nat -> real)
    ensures 0 <= Demand(t, after, rounds, max, min, clock) <= max
  {
    if rounds > 0 { ShareRises(t, after, clock(rounds - 1), clock(rounds - 1), max, min); }
  }

  lemma {:induction false} PeakStarts(t: Table, after: real, rounds: nat, max: nat, min: nat, clock: nat -> real)
    ensures Peak(t, after, rounds, max, min, clock) >= 0
    ensures Demand(t, after, rounds, max, min, clock) <= Peak(t, after, rounds, max, min, clock)
    ensures Peak(t, after, rounds, max, min, clock) <= Peak(t, after, rounds + 1, max, min, clock)
  {
    if rounds > 0 { PeakStarts(t, after, rounds - 1, max, min, clock); }
  }

  /** `met` lies between what a decision asks for at the last reading, unless the switch ended the loop, and the most it asks
      for at any; the rows gone are those of a decision that asks for `met`. */
  ghost predicate Met(t: Table, after: real, until: real, met: int, rounds: nat, off: bool, max: nat, min: nat, clock: nat -> real) {
    && Least(t, Resident(t, after), met, until)
    && (off || Demand(t, after, rounds, max, min, clock) <= met) && met <= Peak(t, after, rounds, max, min, clock)
  }

  lemma LoopEnds(t0: Table, after0: real, t: Table, until: real, gone: set<Key>, evicted: nat, m: int, rounds: nat, off: bool,
                 max: nat, min: nat, clock: nat -> real) returns (met: int)
    requires Alone(t0, after0, t, until, gone, evicted, m) && m <= Peak(t0, after0, rounds, max, min, clock)
    requires off || Demand(t0, after0, rounds, max, min, clock) <= evicted
    ensures Swept(t0, after0, until, t) && Met(t0, after0, until, met, rounds, off, max, min, clock)
  {
    met := if off then m else Max(m, Demand(t0, after0, rounds, max, min, clock));
    PeakStarts(t0, after0, rounds, max, min, clock);
    AloneEnds(t0, after0, t, until, gone, evicted, m, met);
  }

  /** The cut after n turns. */
  function CutAt(turns: seq<Turn>, n: nat, start: real): real
    requires n <= |turns|
  {
    if n == 0 then start else turns[n - 1].until
  }

  /** When nobody else touches the table, the turns make progress on it together: m rows of the demand are met after n of
      them. */
  lemma {:induction false} QuietTurns(turns: seq<Turn>, n: nat, t0: Table, after0: real, max: nat, min: nat, clock: nat -> real,
                                      others: (nat, Table) -> Table, on: nat -> bool) returns (m: int)
    requires n <= |turns| && TurnsOk(turns, after0, max, min, clock) && Chained(turns, t0, others, on) && Quiet(others)
    ensures Alone(t0, after0, Left(turns, n, t0), CutAt(turns, n, after0), AllKeys(turns, n), Taken(turns, n), m)
    ensures m <= Peak(t0, after0, n, max, min, clock)
    ensures n > 0 && turns[n - 1].keys == {} ==> Demand(t0, after0, n, max, min, clock) <= Taken(turns, n)
  {
    if n == 0 {
      AloneStart(t0, after0);
      m := 0;
    } else {
      var m0 := QuietTurns(turns, n - 1, t0, after0, max, min, clock, others, on);
      assert Linked(turns, n - 1, t0, others, on);
      assert TurnOk(turns, n - 1, after0, max, min, clock);
      m := QuietTurn(turns[n - 1], t0, after0, AllKeys(turns, n - 1), Taken(turns, n - 1), max, min, m0);
    }
  }

  lemma QuietTurn(r: Turn, t0: Table, after0: real, gone: set<Key>, taken: nat, max: nat, min: nat, m: int) returns (m': int)
    requires Alone(t0, after0, r.table, r.after, gone, taken, m) && taken < max && r.after <= r.until
    requires r.max == BatchMax(max, taken) && r.min == BatchMin(max, min, taken)
    requires Decision(r.table, r.after, r.before, r.max, r.min, r.keys, r.until)
    ensures Alone(t0, after0, Pruned(r.table, r.keys), r.until, gone + r.keys, taken + |r.keys|, m')
    ensures m' <= Max(m, Share(t0, after0, r.before, max, min))
    ensures r.keys == {} ==> Share(t0, after0, r.before, max, min) <= taken
  {
    m' := RoundDemand(t0, after0, r.table, r.after, gone, r.before, max, min, r.keys, r.until, m);
  }

  lemma QuietEnds(turns: seq<Turn>, t0: Table, after0: real, max: nat, min: nat, clock: nat -> real, others: (nat, Table) -> Table,
                  on: nat -> bool, off: bool) returns (met: int)
    requires TurnsOk(turns, after0, max, min, clock) && Chained(turns, t0, others, on) && Quiet(others)
    requires off || Taken(turns, |turns|) >= max || (turns != [] && turns[|turns| - 1].keys == {})
    ensures Progress(t0, after0, Left(turns, |turns|, t0), CutAt(turns, |turns|, after0), AllKeys(turns, |turns|))
    ensures |AllKeys(turns, |turns|)| == Taken(turns, |turns|)
    ensures Swept(t0, after0, CutAt(turns, |turns|, after0), Left(turns, |turns|, t0))
    ensures Met(t0, after0, CutAt(turns, |turns|, after0), met, |turns|, off, max, min, clock)
  {
    var n := |turns|;
    var m := QuietTurns(turns, n, t0, after0, max, min, clock, others, on);
    DemandBound(t0, after0, n, max, min, clock);
    met := LoopEnds(t0, after0, Left(turns, n, t0), CutAt(turns, n, after0), AllKeys(turns, n), Taken(turns, n), m, n, off, max, min, clock);
  }

  /** If the clock does not go back, the rows gone are exactly those of one decision at its last reading. */
  lemma LastReadingDecides(t: Table, after: real, until: real, met: int, rounds: nat, max: nat, min: nat, clock: nat -> real)
    requires Met(t, after, until, met, rounds, false, max, min, clock) && Rising(clock) && rounds > 0
    ensures Least(t, Resident(t, after), Share(t, after, clock(rounds - 1), max, min), until)
  {
    PeakIsLast(t, after, rounds, max, min, clock);
  }

  class KVStore {
    const record: Record
    var evictedUntil: real

    constructor (record: Record, now: real)
      ensures this.record == record && evictedUntil == now
    {
      this.record := record;
      evictedUntil := now;
    }

    /** Evicts up to maxCount expired groups and at least minCount groups; clock(i) is the lease bound read in round i, on(i)
        the switch, and others(i, t) what other callers have made of the table t when round i looks at it. `gone` is what
        was broadcast to the ranks, `off` tells that the switch ended the loop. When nobody else touches the table, the
        rows gone are those of one decision that asks for `met` rows: at least what it asks for at the last reading of the
        clock, at most what it asks for at any reading; so exactly the former if the clock does not go back. */
    method EvictLru(maxCount: nat, minCount: nat, clock: nat -> real, on: nat -> bool, others: (nat, Table) -> Table)
      returns (evicted: nat, gone: set<Key>, rounds: nat, off: bool, ghost turns: seq<Turn>, ghost met: int)
      modifies this, record
      ensures Traced(turns, rounds, old(evictedUntil), evictedUntil, maxCount, minCount, clock, evicted)
      ensures !off ==> evicted >= maxCount || (rounds > 0 && turns[rounds - 1].keys == {})
      ensures off ==> evicted < maxCount && !on(rounds) && (rounds > 0 ==> turns[rounds - 1].keys != {})
      ensures Story(turns, old(record.table), others, on, record.table, gone)
      ensures Quiet(others) ==>
                && Progress(old(record.table), old(evictedUntil), record.table, evictedUntil, gone) && |gone| == evicted
                && Swept(old(record.table), old(evictedUntil), evictedUntil, record.table)
      ensures Quiet(others) ==> Met(old(record.table), old(evictedUntil), evictedUntil, met, rounds, off, maxCount, minCount, clock)
      ensures Quiet(others) && rounds > 0 && !off && Rising(clock) ==>
                Least(old(record.table), Resident(old(record.table), old(evictedUntil)),
                      Share(old(record.table), old(evictedUntil), clock(rounds - 1), maxCount, minCount), evictedUntil)
    {
      ghost var t0, after0 := record.table, evictedUntil;
      evicted, gone, rounds, off, turns := RunRounds(maxCount, minCount, clock, on, others);
      met := 0;
      if Quiet(others) {
        met := QuietEnds(turns, t0, after0, maxCount, minCount, clock, others, on, off);
        if Rising(clock) && rounds > 0 && !off {
          LastReadingDecides(t0, after0, evictedUntil, met, rounds, maxCount, minCount, clock);
        }
      }
    }

    /** The loop. */
    method RunRounds(max: nat, min: nat, clock: nat -> real, on: nat -> bool, others: (nat, Table) -> Table)
      returns (evicted: nat, gone: set<Key>, rounds: nat, off: bool, ghost turns: seq<Turn>)
      modifies this, record
      ensures Traced(turns, rounds, old(evictedUntil), evictedUntil, max, min, clock, evicted)
      ensures Story(turns, old(record.table), others, on, record.table, gone)
      ensures !off ==> evicted >= max || (rounds > 0 && turns[rounds - 1].keys == {})
      ensures off ==> evicted < max && !on(rounds) && (rounds > 0 ==> turns[rounds - 1].keys != {})
    {
      ghost var t0, after0 := record.table, evictedUntil;
      evicted, gone, rounds, off, turns := 0, {}, 0, false, [];
      while evicted < max
        invariant Traced(turns, rounds, after0, evictedUntil, max, min, clock, evicted)
        invariant Story(turns, t0, others, on, record.table, gone)
        invariant rounds > 0 ==> turns[rounds - 1].keys != {}
        decreases max - evicted
      {
        if !on(rounds) { off := true; return; }
        var keys;
        keys, turns := RunRound(max, min, clock, on, others, evicted, rounds, turns, t0, after0, gone);
        rounds, gone := rounds + 1, gone + keys;
        if keys == {} { return; }
        evicted := evicted + |keys|;
      }
    }

    /** One round: other callers first, then one decision under the record's lock. */
    method RunRound(max: nat, min: nat, clock: nat -> real, ghost on: nat -> bool, others: (nat, Table) -> Table, evicted: nat,
                    round: nat, ghost turns: seq<Turn>, ghost t0: Table, ghost after0: real, ghost gone: set<Key>)
      returns (keys: set<Key>, ghost turns': seq<Turn>)
      requires evicted < max && Traced(turns, round, after0, evictedUntil, max, min, clock, evicted)
      requires on(round) && Story(turns, t0, others, on, record.table, gone)
      modifies this, record
      ensures Traced(turns', round + 1, after0, evictedUntil, max, min, clock, evicted + |keys|) && turns'[round].keys == keys
      ensures Story(turns', t0, others, on, record.table, gone + keys)
    {
      ghost var was := record.table;
      record.table := others(round, record.table);
      ghost var t, until := record.table, evictedUntil;
      var next;
      keys, next := record.Evict(evictedUntil, clock(round), BatchMax(max, evicted), BatchMin(max, min, evicted));
      evictedUntil := next;
      ghost var r := Turn(t, until, clock(round), BatchMax(max, evicted), BatchMin(max, min, evicted), keys, next);
      AddTurn(turns, r, after0, max, min, clock);
      AddStory(turns, r, t0, others, on, was, gone);
      turns' := turns + [r];
    }
  }

  // ---- results about the loop ----

  /** The batched loop takes exactly the rows of one unbatched decision made at its last reading of the clock: with a
      fixed lease bound, of the very decision it stands for. Ties make no difference. */
  lemma BatchesEqualOneDecision(t: Table, after: real, before: real, max: nat, min: nat, until: real, keys: set<Key>, next: real)
    requires Least(t, Resident(t, after), Share(t, after, before, max, min), until)
    requires Decision(t, after, before, max, min, keys, next)
    ensures Upto(t, Resident(t, after), until) == keys
  {
    DecisionIsLeast(t, after, before, max, min, keys, next);
    LeastUnique(t, Resident(t, after), Share(t, after, before, max, min), until, next);
  }

  /** A row whose lease has not expired is taken only when the forced minimum is more than all the expired rows. */
  lemma LeasedOnlyWhenForced(t: Table, after: real, before: real, max: nat, min: nat, until: real, k: Key)
    requires Least(t, Resident(t, after), Share(t, after, before, max, min), until)
    requires k in Upto(t, Resident(t, after), until) && t[k].last >= before
    ensures Expired(t, after, before) < Min(Min(min, max), |Resident(t, after)|) == Share(t, after, before, max, min)
  {
    var w, x := Resident(t, after), Window(t, after, Below(before));
    var y := BeforeIsUpto(t, w, before);
    assert Before(t, w, before) == x;
    assert k !in Upto(t, w, y);
  }

  /** In the loop, whatever others do to the table between its turns: a leased row goes only in a turn that began with
      fewer than minCount rows taken. */
  lemma LeasedOnlyBelowMinimum(turns: seq<Turn>, i: nat, start: real, max: nat, min: nat, clock: nat -> real, k: Key)
    requires TurnsOk(turns, start, max, min, clock) && i < |turns|
    requires k in turns[i].keys && k in turns[i].table && turns[i].table[k].last >= clock(i)
    ensures Taken(turns, i) < min
  {
    var r := turns[i];
    assert TurnOk(turns, i, start, max, min, clock);
    DecisionIsLeast(r.table, r.after, r.before, r.max, r.min, r.keys, r.until);
    LeasedOnlyWhenForced(r.table, r.after, r.before, r.max, r.min, r.until, k);
  }

  /** ... and every turn takes the oldest rows then resident: whatever stays resident is later than all it took. */
  lemma OldestFirst(turns: seq<Turn>, i: nat, start: real, max: nat, min: nat, clock: nat -> real, j: Key, k: Key)
    requires TurnsOk(turns, start, max, min, clock) && i < |turns|
    requires j in turns[i].keys && k in Resident(turns[i].table, turns[i].after) && k !in turns[i].keys
    ensures j in turns[i].table && turns[i].table[j].last < turns[i].table[k].last
  {
    var r := turns[i];
    assert TurnOk(turns, i, start, max, min, clock);
    DecisionIsLeast(r.table, r.after, r.before, r.max, r.min, r.keys, r.until);
  }

  /** Two rows that share a time stamp are taken together: the limit of one decision is then exceeded. */
  lemma TiesOvershoot()
    ensures exists t: Table, keys, until ::
              Decision(t, 0.0, 5.0, 1, 0, keys, until) && |keys| > Share(t, 0.0, 5.0, 1, 0)
  {
    var row := Row(1.0, false);
    var t: Table := map["a" := row, "b" := row];
    var w, keys := Window(t, 0.0, Below(5.0)), Resident(t, 0.0);
    assert w == keys == {"a", "b"};
    assert Before(t, w, 1.0) == {} && Upto(t, w, 1.0) == w;
    assert "a" in w && t["a"].last == 1.0;
    assert IsCut(t, w, 1, 0.0, 1.0);
    assert DecisionBy(t, 0.0, 5.0, 1, 0, keys, 1.0, 1.0, 0.0);
    assert Decision(t, 0.0, 5.0, 1, 0, keys, 1.0);
  }
}
