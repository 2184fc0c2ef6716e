/** Mem::Impl: the map of entry groups, the list of groups in order of use, the list of unpersisted groups and the byte
    and entry counters, kept in step by every operation. The lists are sequences of keys here; IntrusiveList shows that
    the pointer operations act like that. Time is read once per call from a clock that never goes back. */
module MemCache {
  import opened Wrappers
  import opened Buffers

  type Key = string

  datatype Group = Group(entries: map<Key, Bytes>, persisted: bool, lastAccess: real)

  type Cache = map<Key, Group>

  // ---- sums ----

  ghost function BytesOf(m: map<Key, Bytes>): nat {
    if m == map[] then 0
    else
      var k :| k in m;
      |m[k]| + BytesOf(m - {k})
  }

  /** The sum does not depend on the order. */
  lemma {:induction false} BytesWithout(m: map<Key, Bytes>, k: Key)
    requires k in m
    ensures BytesOf(m) == |m[k]| + BytesOf(m - {k})
    decreases |m|
  {
    var j :| j in m && BytesOf(m) == |m[j]| + BytesOf(m - {j});
    if j != k {
      BytesWithout(m - {j}, k);
      BytesWithout(m - {k}, j);
      assert m - {j} - {k} == m - {k} - {j};
    }
  }

  lemma BytesUpdate(m: map<Key, Bytes>, k: Key, b: Bytes)
    ensures BytesOf(m[k := b]) == |b| + BytesOf(m) - if k in m then |m[k]| else 0
  {
    BytesWithout(m[k := b], k);
    assert m[k := b] - {k} == m - {k};
    if k in m { BytesWithout(m, k); } else { assert m - {k} == m; }
  }

  /** EntryGroup::total_bytes */
  method TotalBytes(m: map<Key, Bytes>) returns (total: nat)
    ensures total == BytesOf(m)
  {
    total := 0;
    var rest := m;
    while rest != map[]
      invariant total + BytesOf(rest) == BytesOf(m)
      decreases |rest|
    {
      var k :| k in rest;
      BytesWithout(rest, k);
      total := total + |rest[k]|;
      rest := rest - {k};
    }
  }

  /** Bytes of the groups s lists. */
  ghost function SumBytes(c: Cache, s: seq<Key>): int {
    if s == [] then 0 else (if s[0] in c then BytesOf(c[s[0]].entries) else 0) + SumBytes(c, s[1..])
  }

  ghost function SumEntries(c: Cache, s: seq<Key>): int {
    if s == [] then 0 else (if s[0] in c then |c[s[0]].entries| else 0) + SumEntries(c, s[1..])
  }

  lemma {:induction false} SumsAgree(c: Cache, d: Cache, s: seq<Key>)
    requires forall k :: k in s ==> k in c && k in d && c[k].entries == d[k].entries
    ensures SumBytes(c, s) == SumBytes(d, s) && SumEntries(c, s) == SumEntries(d, s)
  {
    if s != [] { SumsAgree(c, d, s[1..]); }
  }

  lemma {:induction false} SumsConcat(c: Cache, s: seq<Key>, t: seq<Key>)
    ensures SumBytes(c, s + t) == SumBytes(c, s) + SumBytes(c, t)
    ensures SumEntries(c, s + t) == SumEntries(c, s) + SumEntries(c, t)
  {
    if s == [] {
      assert s + t == t;
    } else {
      assert (s + t)[1..] == s[1..] + t;
      SumsConcat(c, s[1..], t);
    }
  }

  // ---- lists ----

  ghost predicate NoRepeats(s: seq<Key>) { forall i, j :: 0 <= i < j < |s| ==> s[i] != s[j] }

  /** s without k: lru_remove. */
  function Without(s: seq<Key>, k: Key): seq<Key> {
    if s == [] then [] else if s[0] == k then s[1..] else [s[0]] + Without(s[1..], k)
  }

  lemma {:induction false} WithoutIs(s: seq<Key>, k: Key)
    requires NoRepeats(s)
    ensures forall x :: x in Without(s, k) <==> x in s && x != k
    ensures k !in s ==> Without(s, k) == s
  {
    if s != [] {
      assert s == [s[0]] + s[1..];
      if s[0] == k {
        assert forall x :: x in s[1..] ==> x != k;
      } else {
        WithoutIs(s[1..], k);
      }
    }
  }

  /** Exactly that place is cut out. */
  lemma {:induction false} WithoutAt(s: seq<Key>, i: nat)
    requires NoRepeats(s) && i < |s|
    ensures Without(s, s[i]) == s[..i] + s[i + 1..]
  {
    if i == 0 {
      assert s[..0] + s[1..] == s[1..];
    } else {
      assert s[0] != s[i] && s[1..][i - 1] == s[i];
      WithoutAt(s[1..], i - 1);
      assert [s[0]] + (s[1..][..i - 1] + s[1..][i..]) == s[..i] + s[i + 1..];
    }
  }

  lemma {:induction false} WithoutUnique(s: seq<Key>, k: Key)
    requires NoRepeats(s)
    ensures NoRepeats(Without(s, k))
  {
    if s != [] && s[0] != k {
      WithoutUnique(s[1..], k);
      WithoutIs(s[1..], k);
      assert s[0] !in s[1..];
      PrependUnique(s[0], Without(s[1..], k));
    }
  }

  lemma PrependUnique(x: Key, s: seq<Key>)
    requires NoRepeats(s) && x !in s
    ensures NoRepeats([x] + s)
  {
  }

  ghost predicate Sorted(c: Cache, s: seq<Key>)
    requires forall k :: k in s ==> k in c
  {
    forall i, j :: 0 <= i < j < |s| ==> c[s[i]].lastAccess <= c[s[j]].lastAccess
  }

  lemma {:induction false} WithoutSorted(c: Cache, s: seq<Key>, k: Key)
    requires NoRepeats(s) && (forall x :: x in s ==> x in c) && Sorted(c, s)
    ensures (forall x :: x in Without(s, k) ==> x in c) && Sorted(c, Without(s, k))
  {
    WithoutIs(s, k);
    if s != [] && s[0] != k {
      WithoutSorted(c, s[1..], k);
      WithoutIs(s[1..], k);
      forall x | x in Without(s[1..], k) ensures c[s[0]].lastAccess <= c[x].lastAccess { FirstIsOldest(c, s, x); }
      PrependSorted(c, s[0], Without(s[1..], k));
    }
  }

  lemma FirstIsOldest(c: Cache, s: seq<Key>, x: Key)
    requires (forall k :: k in s ==> k in c) && Sorted(c, s) && s != [] && x in s[1..]
    ensures c[s[0]].lastAccess <= c[x].lastAccess
  {
    var i :| 0 <= i < |s[1..]| && s[1..][i] == x;
    assert s[i + 1] == x;
  }

  lemma PrependSorted(c: Cache, x: Key, s: seq<Key>)
    requires (forall k :: k in s ==> k in c) && Sorted(c, s) && x in c
    requires forall k :: k in s ==> c[x].lastAccess <= c[k].lastAccess
    ensures (forall k :: k in [x] + s ==> k in c) && Sorted(c, [x] + s)
  {
  }

  lemma {:induction false} WithoutSums(c: Cache, s: seq<Key>, k: Key)
    requires NoRepeats(s) && k in s && (forall x :: x in s ==> x in c)
    ensures forall x :: x in Without(s, k) ==> x in c
    ensures SumBytes(c, s) == BytesOf(c[k].entries) + SumBytes(c, Without(s, k))
    ensures SumEntries(c, s) == |c[k].entries| + SumEntries(c, Without(s, k))
  {
    WithoutIs(s, k);
    if s[0] != k {
      assert s == [s[0]] + s[1..];
      WithoutSums(c, s[1..], k);
      assert Without(s, k)[1..] == Without(s[1..], k);
    }
  }

  // ---- the invariant ----

  /** The LRU list holds every group once, oldest access first. */
  ghost predicate LruAgrees(c: Cache, lru: seq<Key>) {
    && NoRepeats(lru)
    && (forall k :: k in lru <==> k in c)
    && Sorted(c, lru)
  }

  /** The unpersisted list holds exactly the groups that are not persisted. */
  ghost predicate UnpersistedAgrees(c: Cache, u: seq<Key>) {
    && NoRepeats(u)
    && forall k :: k in u <==> k in c && !c[k].persisted
  }

  ghost predicate CountersAgree(c: Cache, lru: seq<Key>, bytes: int, entries: int) {
    && (forall k :: k in lru ==> k in c)
    && bytes == SumBytes(c, lru) && entries == SumEntries(c, lru)
  }

  ghost predicate NotLater(c: Cache, now: real) { forall k :: k in c ==> c[k].lastAccess <= now }

  // ---- steps of the invariant ----

  /** Moving k to the back after giving it the latest access. */
  lemma TouchLru(c: Cache, d: Cache, lru: seq<Key>, k: Key, now: real)
    requires LruAgrees(c, lru) && NotLater(c, now) && k in d && d[k].lastAccess == now
    requires forall x :: x in d <==> x in c || x == k
    requires forall x :: x in c && x != k ==> d[x].lastAccess == c[x].lastAccess
    ensures LruAgrees(d, Without(lru, k) + [k])
  {
    WithoutIs(lru, k);
    WithoutUnique(lru, k);
    WithoutSorted(c, lru, k);
    var t := Without(lru, k);
    forall i, j | 0 <= i < j < |t + [k]| ensures d[(t + [k])[i]].lastAccess <= d[(t + [k])[j]].lastAccess {
      assert t[i] in t;
      if j < |t| { assert t[j] in t; assert c[t[i]].lastAccess <= c[t[j]].lastAccess; }
    }
  }

  lemma TouchCounters(c: Cache, d: Cache, lru: seq<Key>, k: Key, bytes: int, entries: int)
    requires LruAgrees(c, lru) && CountersAgree(c, lru, bytes, entries) && k in d
    requires forall x :: x in d <==> x in c || x == k
    requires forall x :: x in c && x != k ==> d[x].entries == c[x].entries
    ensures CountersAgree(d, Without(lru, k) + [k],
                          bytes + BytesOf(d[k].entries) - (if k in c then BytesOf(c[k].entries) else 0),
                          entries + |d[k].entries| - (if k in c then |c[k].entries| else 0))
  {
    WithoutIs(lru, k);
    var t := Without(lru, k);
    if k in c { WithoutSums(c, lru, k); }
    SumsAgree(c, d, t);
    assert forall x :: x in t + [k] ==> x in d;
    SumsConcat(d, t, [k]);
    assert [k][1..] == [];
  }

  lemma DropLru(c: Cache, lru: seq<Key>, k: Key)
    requires LruAgrees(c, lru) && k in c
    ensures LruAgrees(c - {k}, Without(lru, k))
  {
    WithoutIs(lru, k);
    WithoutUnique(lru, k);
    WithoutSorted(c, lru, k);
    assert forall x :: x in Without(lru, k) ==> x in c - {k};
  }

  lemma DropCounters(c: Cache, lru: seq<Key>, k: Key, bytes: int, entries: int)
    requires LruAgrees(c, lru) && CountersAgree(c, lru, bytes, entries) && k in c
    ensures CountersAgree(c - {k}, Without(lru, k), bytes - BytesOf(c[k].entries), entries - |c[k].entries|)
  {
    WithoutIs(lru, k);
    WithoutSums(c, lru, k);
    SumsAgree(c, c - {k}, Without(lru, k));
  }

  lemma DropUnpersisted(c: Cache, u: seq<Key>, k: Key)
    requires UnpersistedAgrees(c, u) && k in c
    ensures UnpersistedAgrees(c - {k}, Without(u, k))
  {
    WithoutIs(u, k);
    WithoutUnique(u, k);
  }

  lemma EntryCount(m: map<Key, Bytes>, k: Key, b: Bytes)
    ensures |m[k := b]| == |m| + if k in m then 0 else 1
  {
    assert m[k := b].Keys == m.Keys + {k};
    assert |m[k := b].Keys| == |m[k := b]| && |m.Keys| == |m|;
    if k in m { assert m.Keys + {k} == m.Keys; }
  }

  // ---- the invariant across the operations ----

  ghost predicate Consistent(c: Cache, lru: seq<Key>, u: seq<Key>, bytes: int, entries: int, clock: real) {
    LruAgrees(c, lru) && UnpersistedAgrees(c, u) && CountersAgree(c, lru, bytes, entries) && NotLater(c, clock)
  }

  /** The group gk after data was stored under tensor key tk. */
  function Stored(c: Cache, gk: Key, tk: Key, data: Bytes, now: real): Group {
    Group((if gk in c then c[gk].entries else map[])[tk := data], false, now)
  }

  /** The bytes under a full label, as far as the cache has them. */
  function Held(c: Cache, gk: Key, tk: Key): Option<Bytes> {
    if gk in c && tk in c[gk].entries then Some(c[gk].entries[tk]) else None
  }

  /** c' is c with `data` under (gk, tk): every other label holds what it held, and only group gk is touched. */
  ghost predicate Replaces(c: Cache, gk: Key, tk: Key, data: Bytes, now: real, c': Cache) {
    && (forall g, t :: Held(c', g, t) == if g == gk && t == tk then Some(data) else Held(c, g, t))
    && gk in c' && !c'[gk].persisted && c'[gk].lastAccess == now
    && c'.Keys == c.Keys + {gk} && forall g :: g in c && g != gk ==> c'[g] == c[g]
  }

  lemma StoredReplaces(c: Cache, gk: Key, tk: Key, data: Bytes, now: real)
    ensures Replaces(c, gk, tk, data, now, c[gk := Stored(c, gk, tk, data, now)])
  {
    var c' := c[gk := Stored(c, gk, tk, data, now)];
    forall g, t ensures Held(c', g, t) == if g == gk && t == tk then Some(data) else Held(c, g, t) { }
  }

  /** The buffer that a put replaces has this size. */
  function Replaced(c: Cache, gk: Key, tk: Key): nat {
    if gk in c && tk in c[gk].entries then |c[gk].entries[tk]| else 0
  }

  function Pending(u: seq<Key>, gk: Key): seq<Key> { if gk in u then u else u + [gk] }

  /** The groups that wait for their first save wait in order: a put adds its group at the end, once. */
  lemma PendingInOrder(u: seq<Key>, gk: Key)
    ensures u <= Pending(u, gk) && |Pending(u, gk)| == |u| + (if gk in u then 0 else 1) && gk in Pending(u, gk)
  {
  }

  lemma PutKeeps(c: Cache, lru: seq<Key>, u: seq<Key>, bytes: int, entries: int, clock: real,
                 gk: Key, tk: Key, data: Bytes, now: real)
    requires Consistent(c, lru, u, bytes, entries, clock) && now >= clock
    ensures Consistent(c[gk := Stored(c, gk, tk, data, now)], Without(lru, gk) + [gk], Pending(u, gk),
                       bytes - Replaced(c, gk, tk) + |data|,
                       if gk in c && tk in c[gk].entries then entries else entries + 1, now)
  {
    var d := c[gk := Stored(c, gk, tk, data, now)];
    var was := if gk in c then c[gk].entries else map[];
    BytesUpdate(was, tk, data);
    EntryCount(was, tk, data);
    TouchLru(c, d, lru, gk, now);
    TouchCounters(c, d, lru, gk, bytes, entries);
    PutUnpersisted(c, u, gk, d[gk]);
  }

  /** The same for a group that is not there yet. */
  lemma PutNewKeeps(c: Cache, lru: seq<Key>, u: seq<Key>, bytes: int, entries: int, clock: real,
                    gk: Key, tk: Key, data: Bytes, now: real)
    requires Consistent(c, lru, u, bytes, entries, clock) && now >= clock && gk !in c
    ensures Stored(c, gk, tk, data, now) == Group(map[tk := data], false, now)
    ensures Without(lru, gk) + [gk] == lru + [gk] && Pending(u, gk) == u + [gk]
    ensures Consistent(c[gk := Group(map[tk := data], false, now)], lru + [gk], u + [gk], bytes + |data|, entries + 1, now)
  {
    Absent(c, lru, u, bytes, entries, clock, gk);
    PutKeeps(c, lru, u, bytes, entries, clock, gk, tk, data, now);
  }

  lemma PutUnpersisted(c: Cache, u: seq<Key>, gk: Key, g: Group)
    requires UnpersistedAgrees(c, u) && !g.persisted
    ensures UnpersistedAgrees(c[gk := g], Pending(u, gk))
  {
  }

  lemma GetKeeps(c: Cache, lru: seq<Key>, u: seq<Key>, bytes: int, entries: int, clock: real, gk: Key, now: real)
    requires Consistent(c, lru, u, bytes, entries, clock) && now >= clock && gk in c
    ensures Consistent(c[gk := c[gk].(lastAccess := now)], Without(lru, gk) + [gk], u, bytes, entries, now)
  {
    var d := c[gk := c[gk].(lastAccess := now)];
    TouchLru(c, d, lru, gk, now);
    GetCounters(c, lru, bytes, entries, gk, now);
    SameFlags(c, d, u);
  }

  lemma GetCounters(c: Cache, lru: seq<Key>, bytes: int, entries: int, gk: Key, now: real)
    requires LruAgrees(c, lru) && CountersAgree(c, lru, bytes, entries) && gk in c
    ensures CountersAgree(c[gk := c[gk].(lastAccess := now)], Without(lru, gk) + [gk], bytes, entries)
  {
    TouchCounters(c, c[gk := c[gk].(lastAccess := now)], lru, gk, bytes, entries);
  }

  lemma SameFlags(c: Cache, d: Cache, u: seq<Key>)
    requires UnpersistedAgrees(c, u) && c.Keys == d.Keys && forall k :: k in c ==> d[k].persisted == c[k].persisted
    ensures UnpersistedAgrees(d, u)
  {
  }

  lemma SameTimes(c: Cache, d: Cache, lru: seq<Key>)
    requires LruAgrees(c, lru) && c.Keys == d.Keys && forall k :: k in c ==> d[k].lastAccess == c[k].lastAccess
    ensures LruAgrees(d, lru)
  {
  }

  lemma RemoveKeeps(c: Cache, lru: seq<Key>, u: seq<Key>, bytes: int, entries: int, clock: real, gk: Key)
    requires Consistent(c, lru, u, bytes, entries, clock) && gk in c
    ensures Consistent(c - {gk}, Without(lru, gk), Without(u, gk), bytes - BytesOf(c[gk].entries),
                       entries - |c[gk].entries|, clock)
  {
    DropLru(c, lru, gk);
    DropCounters(c, lru, gk, bytes, entries);
    DropUnpersisted(c, u, gk);
  }

  lemma MarkKeeps(c: Cache, lru: seq<Key>, u: seq<Key>, bytes: int, entries: int, clock: real, gk: Key)
    requires Consistent(c, lru, u, bytes, entries, clock) && gk in c
    ensures Consistent(c[gk := c[gk].(persisted := true)], lru, Without(u, gk), bytes, entries, clock)
  {
    var d := c[gk := c[gk].(persisted := true)];
    SumsAgree(c, d, lru);
    SameTimes(c, d, lru);
    MarkUnpersisted(c, u, gk);
  }

  lemma MarkUnpersisted(c: Cache, u: seq<Key>, gk: Key)
    requires UnpersistedAgrees(c, u) && gk in c
    ensures UnpersistedAgrees(c[gk := c[gk].(persisted := true)], Without(u, gk))
  {
    WithoutIs(u, gk);
    WithoutUnique(u, gk);
  }

  lemma ListedUnlessPersisted(c: Cache, u: seq<Key>, gk: Key)
    requires UnpersistedAgrees(c, u) && gk in c
    ensures gk in u <==> !c[gk].persisted
  {
  }

  lemma Absent(c: Cache, lru: seq<Key>, u: seq<Key>, bytes: int, entries: int, clock: real, gk: Key)
    requires Consistent(c, lru, u, bytes, entries, clock)
    ensures gk !in c ==> c - {gk} == c && Without(lru, gk) == lru && Pending(u, gk) == u + [gk]
    ensures gk !in c || c[gk].persisted ==> Without(u, gk) == u && gk !in u
  {
    WithoutIs(lru, gk);
    WithoutIs(u, gk);
  }

  // ---- the object ----

  class Mem {
    var cache: Cache
    var lru: seq<Key>
    var unpersisted: seq<Key>
    var currentBytes: int
    var totalEntries: int
    ghost var clock: real

    ghost predicate Valid()
      reads this
    {
      Consistent(cache, lru, unpersisted, currentBytes, totalEntries, clock)
    }

    constructor ()
      ensures Valid() && cache == map[]
    {
      cache, lru, unpersisted, currentBytes, totalEntries, clock := map[], [], [], 0, 0, 0.0;
    }

    /** put_one_unlocked; returns false where the source throws on a null buffer. */
    method PutOne(gk: Key, tk: Key, data: Option<Bytes>, now: real) returns (ok: bool)
      requires Valid() && now >= clock
      modifies this
      ensures Valid() && (ok <==> data.Some?)
      ensures !ok ==> cache == old(cache) && lru == old(lru) && unpersisted == old(unpersisted) && clock == old(clock)
      ensures ok ==> clock == now && cache == old(cache)[gk := Stored(old(cache), gk, tk, data.value, now)]
      ensures ok ==> Replaces(old(cache), gk, tk, data.value, now, cache)
      ensures ok ==> lru == Without(old(lru), gk) + [gk] && unpersisted == Pending(old(unpersisted), gk)
    {
      if data.None? { return false; }
      StoredReplaces(cache, gk, tk, data.value, now);
      if gk in cache {
        PutIntoGroup(gk, tk, data.value, now);
      } else {
        PutNewGroup(gk, tk, data.value, now);
      }
      return true;
    }

    /** The branch of put_one_unlocked for a group that is there. */
    method PutIntoGroup(gk: Key, tk: Key, data: Bytes, now: real)
      requires Valid() && now >= clock && gk in cache
      modifies this
      ensures Valid() && clock == now && cache == old(cache)[gk := Stored(old(cache), gk, tk, data, now)]
      ensures lru == Without(old(lru), gk) + [gk] && unpersisted == Pending(old(unpersisted), gk)
    {
      PutKeeps(cache, lru, unpersisted, currentBytes, totalEntries, clock, gk, tk, data, now);
      var group := cache[gk];
      ListedUnlessPersisted(cache, unpersisted, gk);
      if tk in group.entries {
        currentBytes := currentBytes - |group.entries[tk]|;
      } else {
        totalEntries := totalEntries + 1;
      }
      currentBytes := currentBytes + |data|;
      lru := Without(lru, gk) + [gk];
      if group.persisted { unpersisted := unpersisted + [gk]; }
      cache := cache[gk := Group(group.entries[tk := data], false, now)];
      clock := now;
    }

    /** The branch that creates the group. */
    method PutNewGroup(gk: Key, tk: Key, data: Bytes, now: real)
      requires Valid() && now >= clock && gk !in cache
      modifies this
      ensures Valid() && clock == now && cache == old(cache)[gk := Stored(old(cache), gk, tk, data, now)]
      ensures lru == Without(old(lru), gk) + [gk] && unpersisted == Pending(old(unpersisted), gk)
    {
      PutNewKeeps(cache, lru, unpersisted, currentBytes, totalEntries, clock, gk, tk, data, now);
      cache := cache[gk := Group(map[tk := data], false, now)];
      currentBytes, totalEntries := currentBytes + |data|, totalEntries + 1;
      lru := lru + [gk];
      unpersisted := unpersisted + [gk];
      clock := now;
    }

    /** get_one_unlocked */
    method GetOne(gk: Key, tk: Key, now: real) returns (r: Option<Bytes>)
      requires Valid() && now >= clock
      modifies this
      ensures Valid() && clock == now
      ensures r == if gk in old(cache) && tk in old(cache)[gk].entries then Some(old(cache)[gk].entries[tk]) else None
      ensures r.None? ==> cache == old(cache) && lru == old(lru)
      ensures r.Some? ==> cache == old(cache)[gk := old(cache)[gk].(lastAccess := now)] && lru == Without(old(lru), gk) + [gk]
      ensures unpersisted == old(unpersisted) && currentBytes == old(currentBytes) && totalEntries == old(totalEntries)
    {
      if gk in cache && tk in cache[gk].entries {
        GetKeeps(cache, lru, unpersisted, currentBytes, totalEntries, clock, gk, now);
        r := Some(cache[gk].entries[tk]);
        cache := cache[gk := cache[gk].(lastAccess := now)];
        lru := Without(lru, gk) + [gk];
      } else {
        r := None;
      }
      clock := now;
    }

    /** remove_unlocked, also the body of evict_labels for one group; returns the bytes given back. */
    method Remove(gk: Key) returns (bytes: nat)
      requires Valid()
      modifies this
      ensures Valid() && clock == old(clock)
      ensures cache == old(cache) - {gk} && lru == Without(old(lru), gk) && unpersisted == Without(old(unpersisted), gk)
      ensures bytes == if gk in old(cache) then BytesOf(old(cache)[gk].entries) else 0
      ensures currentBytes == old(currentBytes) - bytes
    {
      bytes := 0;
      if gk in cache {
        bytes := TotalBytes(cache[gk].entries);
        RemoveKeeps(cache, lru, unpersisted, currentBytes, totalEntries, clock, gk);
        currentBytes := currentBytes - bytes;
        totalEntries := totalEntries - |cache[gk].entries|;
        lru, unpersisted, cache := Without(lru, gk), Without(unpersisted, gk), cache - {gk};
      } else {
        Absent(cache, lru, unpersisted, currentBytes, totalEntries, clock, gk);
      }
    }

    /** evict_labels: unlinks the groups that are there. */
    method EvictLabels(keys: seq<Key>)
      requires Valid()
      modifies this
      ensures Valid() && clock == old(clock)
      ensures cache == old(cache) - Elements(keys)
    {
      var i := 0;
      while i < |keys|
        invariant 0 <= i <= |keys| && Valid() && clock == old(clock)
        invariant cache == old(cache) - Elements(keys[..i])
      {
        ElementsGrow(keys, i);
        var _ := Remove(keys[i]);
        i := i + 1;
      }
      assert keys[..i] == keys;
    }

    /** mark_persisted_unlocked for one group. */
    method MarkPersisted(gk: Key)
      requires Valid()
      modifies this
      ensures Valid() && clock == old(clock) && lru == old(lru)
      ensures cache == if gk in old(cache) then old(cache)[gk := old(cache)[gk].(persisted := true)] else old(cache)
      ensures unpersisted == Without(old(unpersisted), gk)
    {
      Absent(cache, lru, unpersisted, currentBytes, totalEntries, clock, gk);
      if gk in cache {
        MarkKeeps(cache, lru, unpersisted, currentBytes, totalEntries, clock, gk);
        if !cache[gk].persisted { unpersisted := Without(unpersisted, gk); }
        cache := cache[gk := cache[gk].(persisted := true)];
      }
    }

    /** evict_unlocked: drops the shortest oldest prefix of the LRU list that brings the bytes down to the target. */
    method EvictToSize(target: nat) returns (evicted: nat, ghost n: nat)
      requires Valid()
      modifies this
      ensures Valid() && clock == old(clock) && evicted == old(currentBytes) - currentBytes
      ensures Evicted(old(cache), old(lru), n, cache, lru, old(currentBytes), currentBytes, target)
      ensures currentBytes <= target || lru == []
    {
      evicted, n := 0, 0;
      ghost var was, order, bytes0 := cache, lru, currentBytes;
      CutNothing(cache, lru);
      while currentBytes > target && lru != []
        invariant Valid() && clock == old(clock)
        invariant Evicted(was, order, n, cache, lru, bytes0, currentBytes, target) && evicted == bytes0 - currentBytes
        decreases |lru|
      {
        var bytes := EvictOldest(was, order, n, bytes0, target);
        evicted, n := evicted + bytes, n + 1;
      }
    }

    /** One round of evict_unlocked: the n groups before it in `order` are gone already. */
    method EvictOldest(ghost was: Cache, ghost order: seq<Key>, ghost n: nat, ghost bytes0: int, ghost target: nat)
      returns (bytes: nat)
      requires Valid() && Evicted(was, order, n, cache, lru, bytes0, currentBytes, target) && lru != []
      requires currentBytes > target
      modifies this
      ensures Valid() && clock == old(clock) && currentBytes == old(currentBytes) - bytes && |lru| < |old(lru)|
      ensures Evicted(was, order, n + 1, cache, lru, bytes0, currentBytes, target)
    {
      CutOne(was, order, n, cache, lru);
      OverOne(was, order, n, bytes0, target);
      bytes := Remove(lru[0]);
    }

    method Clear()
      requires Valid()
      modifies this
      ensures Valid() && cache == map[] && currentBytes == 0 && totalEntries == 0 && clock == old(clock)
    {
      cache, lru, unpersisted, currentBytes, totalEntries := map[], [], [], 0, 0;
    }
  }

  function Elements(s: seq<Key>): set<Key> { set k | k in s }

  lemma ElementsGrow(s: seq<Key>, i: nat)
    requires i < |s|
    ensures Elements(s[..i + 1]) == Elements(s[..i]) + {s[i]}
  {
    assert s[..i + 1] == s[..i] + [s[i]];
  }

  /** Bytes of the n oldest groups. */
  ghost function Oldest(c: Cache, lru: seq<Key>, n: nat): int
    requires n <= |lru|
  {
    SumBytes(c, lru[..n])
  }

  /** (c', lru') is (c, lru) without its n oldest groups. */
  ghost predicate Cut(c: Cache, lru: seq<Key>, n: nat, c': Cache, lru': seq<Key>)
    requires n <= |lru|
  {
    && (forall k :: k in lru ==> k in c)
    && lru' == lru[n..] && c' == c - Elements(lru[..n])
  }

  /** Dropping fewer than n groups does not reach the target. */
  ghost predicate StillOver(c: Cache, lru: seq<Key>, n: nat, bytes: int, target: int)
    requires n <= |lru|
  {
    forall m :: 0 <= m < n ==> bytes - Oldest(c, lru, m) > target
  }

  /** What evict_unlocked has done after n rounds. */
  ghost predicate Evicted(c: Cache, lru: seq<Key>, n: nat, c': Cache, lru': seq<Key>, bytes: int, bytes': int, target: nat) {
    && n <= |lru|
    && Cut(c, lru, n, c', lru')
    && bytes' == bytes - Oldest(c, lru, n)
    && StillOver(c, lru, n, bytes, target)
  }

  lemma OverOne(c: Cache, lru: seq<Key>, n: nat, bytes: int, target: int)
    requires n <= |lru| && StillOver(c, lru, n, bytes, target)
    requires bytes - Oldest(c, lru, n) > target
    ensures n < |lru| ==> StillOver(c, lru, n + 1, bytes, target)
  {
  }

  lemma CutNothing(c: Cache, lru: seq<Key>)
    requires LruAgrees(c, lru)
    ensures Cut(c, lru, 0, c, lru) && Oldest(c, lru, 0) == 0
  {
    assert lru[0..] == lru && lru[..0] == [];
    assert c - {} == c;
  }

  lemma CutOne(c: Cache, lru: seq<Key>, n: nat, c': Cache, lru': seq<Key>)
    requires n <= |lru| && Cut(c, lru, n, c', lru') && LruAgrees(c', lru') && lru' != []
    ensures n < |lru| && lru'[0] in c' && c'[lru'[0]] == c[lru'[0]]
    ensures Cut(c, lru, n + 1, c' - {lru'[0]}, Without(lru', lru'[0]))
    ensures Oldest(c, lru, n + 1) == Oldest(c, lru, n) + BytesOf(c[lru'[0]].entries)
  {
    assert lru'[0] == lru[n] && lru'[0] in lru';
    ElementsGrow(lru, n);
    assert lru'[1..] == lru[n + 1..];
    PrefixSum(c, lru, n);
  }

  lemma PrefixSum(c: Cache, s: seq<Key>, n: nat)
    requires n < |s| && forall k :: k in s ==> k in c
    ensures SumBytes(c, s[..n + 1]) == SumBytes(c, s[..n]) + BytesOf(c[s[n]].entries)
  {
    assert s[..n + 1] == s[..n] + [s[n]];
    SumsConcat(c, s[..n], [s[n]]);
    assert [s[n]][1..] == [];
  }
}
