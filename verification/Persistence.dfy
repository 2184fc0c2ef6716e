/** Memory cache, record table and files together: what becomes of a persisted group under every operation of Mem, Record
    and KVStore. An operation under Mem's mutex is one event; the saves of persist_groups touch files only, so its event
    stands at the moment it marks the table, whatever the table's other users do in between. */
module Persistence {
  import opened Wrappers
  import opened Buffers
  import opened Labels
  import M = MemCache
  import R = EvictLru

  datatype State = State(cache: M.Cache, table: R.Table, files: map<Path, Bytes>)

  /** Keys that the label functions accept. */
  predicate WellFormed(gk: string, tk: string) { ParseGroupKey(gk).Some? && Good(tk) }

  /** The directory of a group, as the file system resolves it. */
  function DirOf(gk: string): Path
    requires ParseGroupKey(gk).Some?
  {
    var (name, chunk) := ParseGroupKey(gk).value;
    Resolve([], [name] + Pieces(chunk))
  }

  function FileOf(gk: string, tk: string): Path
    requires ParseGroupKey(gk).Some?
  {
    var (name, chunk) := ParseGroupKey(gk).value;
    Resolve([], PathOf(name, chunk, tk))
  }

  predicate DotFree(gk: string) { ParseGroupKey(gk).Some? && NoDots(Pieces(ParseGroupKey(gk).value.1)) }

  datatype Event =
    | Put(gk: string, tk: string, data: Bytes, now: real)
    | Submit(gk: string, now: real)                       // Record.submit: INSERT OR REPLACE, not persisted
    | Touch(gk: string, now: real)                        // Record.touch
    | Persist(gk: string, order: seq<string>)             // persist_groups on one group
    | Drop(gks: set<string>)                              // evict_labels, remove, evict_to_size, clear
    | EvictGroups(gks: set<string>)                       // evict_groups: also removes unpersisted rows
    | RecordEvict(gks: set<string>)                       // Record.evict: deletes unpersisted rows
    | Get(gk: string, tk: string, now: real)

  /** The result of a get; the process aborts when a file that should be there is missing. */
  datatype Answer = Found(data: Bytes) | Missing | Abort

  function Look(s: State, gk: string, tk: string): Answer {
    if gk in s.cache && tk in s.cache[gk].entries then Found(s.cache[gk].entries[tk])
    else if gk in s.table && s.table[gk].persisted then
      if ParseGroupKey(gk).Some? && FileOf(gk, tk) in s.files then Found(s.files[FileOf(gk, tk)]) else Abort
    else Missing
  }

  predicate Enabled(s: State, e: Event) {
    match e
    case Put(gk, tk, _, _) => WellFormed(gk, tk)
    case Persist(gk, order) =>
      && gk in s.cache && !s.cache[gk].persisted
      && s.cache[gk].entries.Keys == (set tk | tk in order)
      && forall tk :: tk in order ==> WellFormed(gk, tk)
    case Get(gk, tk, _) => WellFormed(gk, tk) && !Look(s, gk, tk).Abort?
    case _ => true
  }

  /** storage.save for each entry in turn. */
  function Saved(files: map<Path, Bytes>, gk: string, entries: map<string, Bytes>, order: seq<string>): map<Path, Bytes>
    requires ParseGroupKey(gk).Some? && forall tk :: tk in order ==> tk in entries
    decreases |order|
  {
    if order == [] then files
    else Saved(files[FileOf(gk, order[0]) := entries[order[0]]], gk, entries, order[1..])
  }

  function Marked(t: R.Table, gk: string): R.Table { if gk in t then t[gk := t[gk].(persisted := true)] else t }

  function After(s: State, e: Event): State
    requires Enabled(s, e)
  {
    match e
    case Put(gk, tk, data, now) => s.(cache := s.cache[gk := M.Stored(s.cache, gk, tk, data, now)])
    case Submit(gk, now) => s.(table := s.table[gk := R.Row(now, false)])
    case Touch(gk, now) => if gk in s.table then s.(table := s.table[gk := s.table[gk].(last := now)]) else s
    case Persist(gk, order) =>
      State(s.cache[gk := s.cache[gk].(persisted := true)],
            Marked(s.table, gk),
            if order == [] then s.files
            else
              assert order[0] in order;
              Saved(s.files, gk, s.cache[gk].entries, order))
    case Drop(gks) => s.(cache := s.cache - gks)
    case EvictGroups(gks) => s.(cache := s.cache - gks, table := R.Pruned(s.table, gks))
    case RecordEvict(gks) => s.(table := R.Pruned(s.table, gks))
    case Get(gk, tk, now) =>
      if gk in s.cache && tk in s.cache[gk].entries then
        s.(cache := s.cache[gk := s.cache[gk].(lastAccess := now)])
      else if Look(s, gk, tk).Found? then
        // loaded from its file, stored like a put, and marked persisted again
        s.(cache := s.cache[gk := M.Stored(s.cache, gk, tk, Look(s, gk, tk).data, now).(persisted := true)])
      else s
  }

  // ---- which keys share a file ----

  lemma FileInDir(gk: string, tk: string)
    requires WellFormed(gk, tk)
    ensures FileOf(gk, tk) == DirOf(gk) + [tk + SUFFIX]
  {
    var (name, chunk) := ParseGroupKey(gk).value;
    var f := tk + SUFFIX;
    GoodIsNotDot(tk);
    ResolveConcat([], [name] + Pieces(chunk), [f]);
    assert [f][1..] == [];
  }

  /** Two keys have one file exactly if their groups have one directory and their tensor keys are the same. */
  lemma FilesDiffer(gk: string, tk: string, gk': string, tk': string)
    requires WellFormed(gk, tk) && WellFormed(gk', tk')
    ensures FileOf(gk, tk) == FileOf(gk', tk') <==> DirOf(gk) == DirOf(gk') && tk == tk'
  {
    FileInDir(gk, tk);
    FileInDir(gk', tk');
    var d, d', f, f' := DirOf(gk), DirOf(gk'), tk + SUFFIX, tk' + SUFFIX;
    if d + [f] == d' + [f'] {
      assert |d| == |d'|;
      assert d == (d + [f])[..|d|] && d' == (d' + [f'])[..|d|];
      assert f == (d + [f])[|d|] && f' == (d' + [f'])[|d|];
      SuffixCancels(tk, tk');
    }
  }

  /** Groups without dot pieces never share a directory. */
  lemma DotFreeDirsDiffer(gk: string, gk': string)
    requires DotFree(gk) && DotFree(gk') && DirOf(gk) == DirOf(gk')
    ensures gk == gk'
  {
    ParsedGroupKey(gk);
    ParsedGroupKey(gk');
    var (l, c) := ParseGroupKey(gk).value;
    var (l', c') := ParseGroupKey(gk').value;
    FilesDiffer(gk, "t", gk', "t");
    DotFreeFilesDiffer(l, c, "t", l', c', "t");
  }

  /** Saving one group leaves the files of other directories and other tensor keys alone. */
  lemma {:induction false} SavedOthers(files: map<Path, Bytes>, gk: string, entries: map<string, Bytes>, order: seq<string>,
                                       gk': string, tk': string)
    requires WellFormed(gk', tk') && (forall tk :: tk in order ==> tk in entries && WellFormed(gk, tk)) && ParseGroupKey(gk).Some?
    requires DirOf(gk') != DirOf(gk) || tk' !in order
    ensures FileOf(gk', tk') in Saved(files, gk, entries, order) <==> FileOf(gk', tk') in files
    ensures FileOf(gk', tk') in files ==> Saved(files, gk, entries, order)[FileOf(gk', tk')] == files[FileOf(gk', tk')]
    decreases |order|
  {
    if order != [] {
      var tk := order[0];
      assert tk in order;
      FilesDiffer(gk, tk, gk', tk');
      SavedOthers(files[FileOf(gk, tk) := entries[tk]], gk, entries, order[1..], gk', tk');
    }
  }

  /** Every entry of the saved group is in its file. */
  lemma {:induction false} SavedAll(files: map<Path, Bytes>, gk: string, entries: map<string, Bytes>, order: seq<string>, tk: string)
    requires (forall t :: t in order ==> t in entries && WellFormed(gk, t)) && ParseGroupKey(gk).Some? && tk in order
    ensures FileOf(gk, tk) in Saved(files, gk, entries, order)
    ensures Saved(files, gk, entries, order)[FileOf(gk, tk)] == entries[tk]
    decreases |order|
  {
    var first := order[0];
    assert first in order;
    var files' := files[FileOf(gk, first) := entries[first]];
    if tk in order[1..] {
      SavedAll(files', gk, entries, order[1..], tk);
    } else {
      assert tk == first;
      SavedOthers(files', gk, entries, order[1..], gk, tk);
    }
  }

  // ---- durability ----

  /** Group gk is on disk with the contents es: its row says persisted, every file holds its entry, and whatever is
      cached of it agrees and is not going to be written again. */
  ghost predicate Durable(s: State, gk: string, es: map<string, Bytes>) {
    && gk in s.table && s.table[gk].persisted
    && (forall tk :: tk in es ==> OnDisk(s.files, gk, tk, es[tk]))
    && (gk in s.cache ==> s.cache[gk].persisted)
    && (forall tk :: gk in s.cache && tk in s.cache[gk].entries && tk in es ==> s.cache[gk].entries[tk] == es[tk])
  }

  predicate OnDisk(files: map<Path, Bytes>, gk: string, tk: string, data: Bytes) {
    WellFormed(gk, tk) && FileOf(gk, tk) in files && files[FileOf(gk, tk)] == data
  }

  /** Does the event put something to gk? A put is the data and, at its end, the row. */
  predicate PutsTo(e: Event, gk: string) { (e.Put? || e.Submit?) && e.gk == gk }

  /** Persisting makes a group durable exactly when its row is in the table at that moment: mark_persisted is an
      UPDATE and creates no row. */
  lemma PersistMakesDurable(s: State, gk: string, order: seq<string>)
    requires Enabled(s, Persist(gk, order))
    ensures Durable(After(s, Persist(gk, order)), gk, s.cache[gk].entries) <==> gk in s.table
  {
    var s', es := After(s, Persist(gk, order)), s.cache[gk].entries;
    forall tk | tk in es ensures OnDisk(s'.files, gk, tk, es[tk]) {
      assert tk in order && WellFormed(gk, tk);
      SavedAll(s.files, gk, es, order, tk);
    }
  }

  /** Persisting group e.gk writes other bytes over a file of group gk: they share a directory and disagree. */
  ghost predicate Overwrites(s: State, e: Event, gk: string, es: map<string, Bytes>)
    requires Enabled(s, e)
  {
    && e.Persist? && e.gk != gk && ParseGroupKey(gk).Some? && ParseGroupKey(e.gk).Some? && DirOf(e.gk) == DirOf(gk)
    && exists tk :: tk in es && tk in s.cache[e.gk].entries && s.cache[e.gk].entries[tk] != es[tk]
  }

  /** What persisting another group does to one file of gk. */
  lemma PersistOther(s: State, g: string, order: seq<string>, gk: string, tk: string, data: Bytes)
    requires Enabled(s, Persist(g, order)) && OnDisk(s.files, gk, tk, data)
    ensures OnDisk(After(s, Persist(g, order)).files, gk, tk, data) <==>
              !(tk in order && DirOf(g) == DirOf(gk) && s.cache[g].entries[tk] != data)
  {
    if order != [] {
      assert order[0] in order;
      if tk in order && DirOf(g) == DirOf(gk) {
        SavedAll(s.files, g, s.cache[g].entries, order, tk);
        FilesDiffer(g, tk, gk, tk);
      } else {
        SavedOthers(s.files, g, s.cache[g].entries, order, gk, tk);
      }
    }
  }

  /** Every event that puts nothing to a durable group keeps it durable, except exactly the persisting of another group
      that shares its directory and disagrees with it on a file. */
  lemma DurableStays(s: State, e: Event, gk: string, es: map<string, Bytes>)
    requires Durable(s, gk, es) && Enabled(s, e) && !PutsTo(e, gk)
    ensures Durable(After(s, e), gk, es) <==> !Overwrites(s, e, gk, es)
  {
    match e
    case Persist(g, order) => PersistStays(s, g, order, gk, es);
    case Get(g, t, now) => GetStays(s, g, t, now, gk, es);
    case _ => assert After(s, e).files == s.files;
  }

  lemma PersistStays(s: State, g: string, order: seq<string>, gk: string, es: map<string, Bytes>)
    requires Durable(s, gk, es) && Enabled(s, Persist(g, order))
    ensures Durable(After(s, Persist(g, order)), gk, es) <==> !Overwrites(s, Persist(g, order), gk, es)
  {
    var s' := After(s, Persist(g, order));
    forall tk | tk in es
      ensures OnDisk(s'.files, gk, tk, es[tk]) <==> !(tk in order && DirOf(g) == DirOf(gk) && s.cache[g].entries[tk] != es[tk])
    {
      assert OnDisk(s.files, gk, tk, es[tk]);
      PersistOther(s, g, order, gk, tk, es[tk]);
    }
  }

  lemma GetStays(s: State, g: string, t: string, now: real, gk: string, es: map<string, Bytes>)
    requires Durable(s, gk, es) && Enabled(s, Get(g, t, now))
    ensures Durable(After(s, Get(g, t, now)), gk, es)
  {
    assert After(s, Get(g, t, now)).files == s.files;
    if g == gk && t in es { assert OnDisk(s.files, gk, t, es[t]); }
  }

  lemma DurableAnswers(s: State, gk: string, es: map<string, Bytes>, tk: string)
    requires Durable(s, gk, es) && tk in es
    ensures Look(s, gk, tk) == Found(es[tk])
  {
    assert OnDisk(s.files, gk, tk, es[tk]);
  }

  ghost predicate Step(s: State, e: Event, s': State) { Enabled(s, e) && s' == After(s, e) }

  /** The event neither puts to the group nor writes other bytes over its files. */
  ghost predicate Leaves(s: State, e: Event, gk: string, es: map<string, Bytes>) {
    Enabled(s, e) && !PutsTo(e, gk) && !Overwrites(s, e, gk, es)
  }

  /** Any execution, from any state. */
  ghost predicate Run(ss: seq<State>, es: seq<Event>) {
    && |ss| == |es| + 1
    && forall i :: 0 <= i < |es| ==> Step(ss[i], es[i], ss[i + 1])
  }

  lemma {:induction false} StaysDurable(ss: seq<State>, es: seq<Event>, i: nat, j: nat, gk: string, contents: map<string, Bytes>)
    requires Run(ss, es) && i <= j < |ss| && Durable(ss[i], gk, contents)
    requires forall k :: i <= k < j ==> Leaves(ss[k], es[k], gk, contents)
    ensures Durable(ss[j], gk, contents)
    decreases j
  {
    if i < j {
      StaysDurable(ss, es, i, j - 1, gk, contents);
      assert Step(ss[j - 1], es[j - 1], ss[j]) && Leaves(ss[j - 1], es[j - 1], gk, contents);
      DurableStays(ss[j - 1], es[j - 1], gk, contents);
    }
  }

  /** Main result: a recorded group persisted at step i is returned byte for byte by any later look-up, whatever was
      evicted, removed, pruned, reloaded or persisted meanwhile, as long as nothing was put to it and no group that
      shares its directory wrote over its files. */
  lemma PersistedComesBack(ss: seq<State>, es: seq<Event>, i: nat, j: nat, tk: string)
    requires Run(ss, es) && i < j < |ss| && es[i].Persist? && es[i].gk in ss[i].table && es[i].gk in ss[i].cache
    requires forall k :: i < k < j ==> Leaves(ss[k], es[k], es[i].gk, ss[i].cache[es[i].gk].entries)
    requires tk in ss[i].cache[es[i].gk].entries
    ensures Look(ss[j], es[i].gk, tk) == Found(ss[i].cache[es[i].gk].entries[tk])
  {
    var gk := es[i].gk;
    assert Step(ss[i], es[i], ss[i + 1]);
    PersistMakesDurable(ss[i], gk, es[i].order);
    StaysDurable(ss, es, i + 1, j, gk, ss[i].cache[gk].entries);
    DurableAnswers(ss[j], gk, ss[i].cache[gk].entries, tk);
  }

  /** Among groups without dot pieces the second condition always holds: only a put can change what comes back. */
  lemma DotFreeComesBack(ss: seq<State>, es: seq<Event>, i: nat, j: nat, tk: string)
    requires Run(ss, es) && i < j < |ss| && es[i].Persist? && es[i].gk in ss[i].table && es[i].gk in ss[i].cache
    requires DotFree(es[i].gk) && forall k :: i < k < j && es[k].Persist? ==> DotFree(es[k].gk)
    requires forall k :: i < k < j ==> !PutsTo(es[k], es[i].gk)
    requires tk in ss[i].cache[es[i].gk].entries
    ensures Look(ss[j], es[i].gk, tk) == Found(ss[i].cache[es[i].gk].entries[tk])
  {
    var gk, contents := es[i].gk, ss[i].cache[es[i].gk].entries;
    forall k | i < k < j ensures Leaves(ss[k], es[k], gk, contents) {
      assert Step(ss[k], es[k], ss[k + 1]);
      if es[k].Persist? && DirOf(es[k].gk) == DirOf(gk) { DotFreeDirsDiffer(es[k].gk, gk); }
    }
    PersistedComesBack(ss, es, i, j, tk);
  }

  /** The exception: a group persisted before its row was submitted is marked persisted in memory only; the row that
      follows says "not persisted" and an eviction then loses the group although its files are there. */
  lemma UnrecordedIsLost(s: State, gk: string, order: seq<string>, tk: string, now: real)
    requires Enabled(s, Persist(gk, order)) && gk !in s.table
    ensures var s1 := After(s, Persist(gk, order));
            var s2 := After(s1, Submit(gk, now));
            var s3 := After(s2, EvictGroups({gk}));
            Look(s3, gk, tk) == Missing && gk !in s3.table
  {
  }

  /** A put decides what is found under its label, and nothing else. */
  lemma PutThenLook(s: State, gk: string, tk: string, data: Bytes, now: real, g: string, t: string)
    requires WellFormed(gk, tk)
    ensures Look(After(s, Put(gk, tk, data, now)), g, t) == if g == gk && t == tk then Found(data) else Look(s, g, t)
  {
    M.StoredReplaces(s.cache, gk, tk, data, now);
    assert M.Held(After(s, Put(gk, tk, data, now)).cache, g, t)
        == if g == gk && t == tk then Some(data) else M.Held(s.cache, g, t);
  }

  /** A get changes no answer; what it finds is cached afterwards and just used, and a group loaded from its files need not
      be saved again. */
  lemma GetKeepsAnswers(s: State, gk: string, tk: string, now: real, g: string, t: string)
    requires Enabled(s, Get(gk, tk, now))
    ensures var s', a := After(s, Get(gk, tk, now)), Look(s, gk, tk);
            && Look(s', g, t) == Look(s, g, t) && s'.table == s.table && s'.files == s.files
            && (a.Missing? ==> s' == s)
            && (a.Found? ==> M.Held(s'.cache, gk, tk) == Some(a.data) && s'.cache[gk].lastAccess == now)
            && (a.Found? && M.Held(s.cache, gk, tk).None? ==> s'.cache[gk].persisted)
            && (M.Held(s.cache, gk, tk).Some? ==> s'.cache[gk].persisted == s.cache[gk].persisted)
  {
    var a := Look(s, gk, tk);
    if a.Found? && M.Held(s.cache, gk, tk).None? {
      M.StoredReplaces(s.cache, gk, tk, a.data, now);
      assert M.Held(s.cache[gk := M.Stored(s.cache, gk, tk, a.data, now)], g, t)
          == if g == gk && t == tk then Some(a.data) else M.Held(s.cache, g, t);
    }
  }

  /** An evicted group is out of the cache until something of it is put or loaded again. */
  lemma {:induction false} EvictedSince(ss: seq<State>, es: seq<Event>, i: nat, j: nat, gk: string)
    requires Run(ss, es) && i < j < |ss| && Evicts(es[i], gk)
    requires forall k :: i < k < j ==> !((es[k].Put? || es[k].Get?) && es[k].gk == gk)
    ensures gk !in ss[j].cache
    decreases j
  {
    assert Step(ss[j - 1], es[j - 1], ss[j]);
    if i < j - 1 { EvictedSince(ss, es, i, j - 1, gk); }
  }

  predicate Prunes(e: Event, gk: string) { (e.RecordEvict? || e.EvictGroups?) && gk in e.gks }

  /** The row of a group says when it was last submitted or touched. */
  lemma {:induction false} RowSince(ss: seq<State>, es: seq<Event>, i: nat, j: nat)
    requires Run(ss, es) && i < j < |ss| && (es[i].Submit? || (es[i].Touch? && es[i].gk in ss[i].table))
    requires forall k :: i < k < j ==> !((es[k].Submit? || es[k].Touch?) && es[k].gk == es[i].gk) && !Prunes(es[k], es[i].gk)
    ensures es[i].gk in ss[j].table && ss[j].table[es[i].gk].last == es[i].now
    decreases j
  {
    assert Step(ss[j - 1], es[j - 1], ss[j]);
    if i < j - 1 { RowSince(ss, es, i, j - 1); }
  }

  /** A decision deletes the rows of its groups that are not persisted, until they are submitted again, and no others. */
  lemma {:induction false} PrunedSince(ss: seq<State>, es: seq<Event>, i: nat, j: nat, gk: string)
    requires Run(ss, es) && i < j < |ss| && Prunes(es[i], gk)
    requires forall k :: i < k < j ==> !(es[k].Submit? && es[k].gk == gk)
    ensures gk in ss[j].table ==> gk in ss[i].table && ss[i].table[gk].persisted && ss[j].table[gk].persisted
    ensures gk in ss[i].table && ss[i].table[gk].persisted ==> gk in ss[j].table && ss[j].table[gk].persisted
    decreases j
  {
    assert Step(ss[j - 1], es[j - 1], ss[j]);
    if i < j - 1 { PrunedSince(ss, es, i, j - 1, gk); }
  }

  predicate Evicts(e: Event, gk: string) { (e.Drop? || e.EvictGroups?) && gk in e.gks }

  /** Until the label is put again or its group evicted, every look finds the bytes of the last put. */
  lemma {:induction false} LastPutWins(ss: seq<State>, es: seq<Event>, i: nat, j: nat)
    requires Run(ss, es) && i < j < |ss| && es[i].Put?
    requires forall k :: i < k < j ==> !(es[k].Put? && es[k].gk == es[i].gk && es[k].tk == es[i].tk) && !Evicts(es[k], es[i].gk)
    ensures M.Held(ss[j].cache, es[i].gk, es[i].tk) == Some(es[i].data)
    ensures Look(ss[j], es[i].gk, es[i].tk) == Found(es[i].data)
    decreases j
  {
    var s, e := ss[j - 1], es[j - 1];
    assert Step(s, e, ss[j]);
    if i < j - 1 { LastPutWins(ss, es, i, j - 1); }
  }

  /** What a put to a durable group does if the group is evicted before it is persisted again: until the row is submitted
      anew, by the put of the last layer, a get brings back the bytes of the file, which are the old ones; then it misses. */
  lemma OldBytesUntilRecorded(s: State, gk: string, es: map<string, Bytes>, tk: string, data: Bytes, now: real, later: real)
    requires Durable(s, gk, es) && tk in es
    ensures Enabled(s, Put(gk, tk, data, now))
    ensures var dropped := After(After(s, Put(gk, tk, data, now)), Drop({gk}));
            Look(dropped, gk, tk) == Found(es[tk]) && Look(After(dropped, Submit(gk, later)), gk, tk) == Missing
  {
    assert OnDisk(s.files, gk, tk, es[tk]);
  }
}
