/** Which blocks of a request the scheduler hands to a save in each step (_add_request_to_save, build_connector_meta,
    ReqMeta.for_group). A block table has one id per block, 0 meaning "not transferred". */
module SaveRanges {
  import opened Wrappers
  import Arith

  /** A KV cache group of the request: its kind and its block table. */
  datatype Group = Group(isMamba: bool, ids: seq<int>)

  /** hashes has one entry per full block of the prompt; exists and mambaExists say which of them the store has. */
  datatype ReqState = ReqState(hashes: seq<string>, exists_: seq<bool>, mambaExists: seq<bool>, groups: seq<Group>)

  /** What a save carries: one row of block ids per group, and the hashes they belong to. */
  datatype ReqMeta = ReqMeta(rows: seq<seq<int>>, hashes: seq<string>)

  type Pair = (int, string)

  // ---- one step ----

  function Start(bs: nat, computed: nat): nat
    requires bs > 0
  {
    computed / bs
  }

  /** The blocks that are full after `tokens` tokens and have a hash. */
  function End(bs: nat, st: ReqState, tokens: nat): nat
    requires bs > 0
  {
    Arith.Min(tokens / bs, |st.hashes|)
  }

  /** The tables reach as far as the step's blocks: vLLM allocated them. A model without mamba layers has no mamba
      existence list. */
  ghost predicate Covers(st: ReqState, end: nat) {
    && |st.exists_| == |st.hashes| >= end
    && forall g :: 0 <= g < |st.groups| ==> GroupCovers(st, st.groups[g], end)
  }

  predicate GroupCovers(st: ReqState, g: Group, end: nat) {
    |g.ids| >= end && (g.isMamba ==> |st.mambaExists| >= end)
  }

  predicate SavesMamba(bs: nat, st: ReqState, end: nat, tokens: nat)
    requires 0 < end <= |st.mambaExists|
  {
    end * bs == tokens && !st.mambaExists[end - 1]
  }

  function AttnRow(st: ReqState, ids: seq<int>, start: nat, end: nat): (r: seq<int>)
    requires start <= end <= |ids| && end <= |st.exists_|
    ensures |r| == end - start
  {
    seq(end - start, i requires 0 <= i < end - start => if st.exists_[start + i] then 0 else ids[start + i])
  }

  function MambaRow(ids: seq<int>, start: nat, end: nat, save: bool): (r: seq<int>)
    requires start < end <= |ids|
    ensures |r| == end - start
  {
    seq(end - start - 1, _ => 0) + [if save then ids[end - 1] else 0]
  }

  function Row(bs: nat, st: ReqState, g: Group, start: nat, end: nat, tokens: nat): seq<int>
    requires start < end && GroupCovers(st, g, end) && end <= |st.exists_|
  {
    if g.isMamba then MambaRow(g.ids, start, end, SavesMamba(bs, st, end, tokens)) else AttnRow(st, g.ids, start, end)
  }

  /** ReqMeta.for_group: the pairs whose block id is not 0. */
  function ForGroup(ids: seq<int>, hashes: seq<string>): seq<Pair>
    requires |ids| == |hashes|
  {
    if ids == [] then []
    else (if ids[0] != 0 then [(ids[0], hashes[0])] else []) + ForGroup(ids[1..], hashes[1..])
  }

  /** The rows of a step, one per group. */
  ghost function Rows(bs: nat, st: ReqState, start: nat, end: nat, tokens: nat): (r: seq<seq<int>>)
    requires start < end && Covers(st, end)
    ensures |r| == |st.groups|
  {
    seq(|st.groups|, g requires 0 <= g < |st.groups| => Row(bs, st, st.groups[g], start, end, tokens))
  }

  /** What _add_request_to_save adds for a step, None when nothing is handed over. */
  ghost function SaveMeta(bs: nat, st: ReqState, computed: nat, scheduled: nat): Option<ReqMeta>
    requires bs > 0 && Covers(st, End(bs, st, computed + scheduled))
  {
    var start, end := Start(bs, computed), End(bs, st, computed + scheduled);
    if end <= start then None
    else
      var rows := Rows(bs, st, start, end, computed + scheduled);
      if AllBlank(rows) then None else Some(ReqMeta(rows, st.hashes[start..end]))
  }

  method AddRequestToSave(bs: nat, st: ReqState, computed: nat, scheduled: nat) returns (meta: Option<ReqMeta>)
    requires bs > 0 && Covers(st, End(bs, st, computed + scheduled))
    ensures meta == SaveMeta(bs, st, computed, scheduled)
  {
    var tokens := computed + scheduled;
    var start, end := computed / bs, Arith.Min(tokens / bs, |st.hashes|);
    if end <= start { return None; }
    var rows := BuildRows(bs, st, start, end, tokens);
    var none := IsAllBlank(rows);
    meta := if none then None else Some(ReqMeta(rows, st.hashes[start..end]));
  }

  /** self.has_mamba */
  method HasMamba(groups: seq<Group>) returns (has: bool)
    ensures has <==> exists g :: 0 <= g < |groups| && groups[g].isMamba
  {
    has := false;
    for g := 0 to |groups|
      invariant has <==> exists h :: 0 <= h < g && groups[h].isMamba
    {
      if groups[g].isMamba { has := true; }
    }
  }

  method BuildRows(bs: nat, st: ReqState, start: nat, end: nat, tokens: nat) returns (rows: seq<seq<int>>)
    requires start < end && Covers(st, end)
    ensures rows == Rows(bs, st, start, end, tokens)
  {
    var has := HasMamba(st.groups);
    var save := has && end * bs == tokens && !st.mambaExists[end - 1];
    rows := [];
    var g := 0;
    while g < |st.groups|
      invariant 0 <= g <= |st.groups| && rows == Rows(bs, st, start, end, tokens)[..g]
    {
      assert GroupCovers(st, st.groups[g], end);
      var row;
      if st.groups[g].isMamba {
        row := MambaRow(st.groups[g].ids, start, end, save);
      } else {
        row := AttentionRow(st, st.groups[g].ids, start, end);
      }
      rows, g := rows + [row], g + 1;
    }
  }

  predicate AllBlank(rows: seq<seq<int>>) { forall g :: 0 <= g < |rows| ==> Blank(rows[g]) }

  /** not any(any(ids) for ids in rows) */
  method IsAllBlank(rows: seq<seq<int>>) returns (b: bool)
    ensures b <==> AllBlank(rows)
  {
    var g := 0;
    while g < |rows|
      invariant 0 <= g <= |rows| && forall h :: 0 <= h < g ==> Blank(rows[h])
    {
      var blank := IsBlank(rows[g]);
      if !blank { return false; }
      g := g + 1;
    }
    return true;
  }

  predicate Blank(row: seq<int>) { forall i :: 0 <= i < |row| ==> row[i] == 0 }

  /** not any(ids) */
  method IsBlank(row: seq<int>) returns (b: bool)
    ensures b <==> Blank(row)
  {
    var i := 0;
    while i < |row|
      invariant 0 <= i <= |row| && forall k :: 0 <= k < i ==> row[k] == 0
    {
      if row[i] != 0 { return false; }
      i := i + 1;
    }
    return true;
  }

  method AttentionRow(st: ReqState, ids: seq<int>, start: nat, end: nat) returns (row: seq<int>)
    requires start <= end <= |ids| && end <= |st.exists_|
    ensures row == AttnRow(st, ids, start, end)
  {
    row := [];
    var index := start;
    while index < end
      invariant start <= index <= end && row == AttnRow(st, ids, start, index)
    {
      row := row + [if st.exists_[index] then 0 else ids[index]];
      index := index + 1;
    }
  }

  /** Block b of group g is to be saved in this step: for attention groups every block the store lacks, for mamba groups the
      last one when the step ends on its boundary and the store lacks its state. */
  ghost predicate ToSave(bs: nat, st: ReqState, g: Group, start: nat, end: nat, tokens: nat, b: nat) {
    && start <= b < end && b < |g.ids| && g.ids[b] != 0
    && if g.isMamba then b + 1 == end && end * bs == tokens && b < |st.mambaExists| && !st.mambaExists[b]
       else b < |st.exists_| && !st.exists_[b]
  }

  lemma RowHas(bs: nat, st: ReqState, g: Group, start: nat, end: nat, tokens: nat, i: nat)
    requires start < end && GroupCovers(st, g, end) && end <= |st.exists_| && i < end - start
    ensures |Row(bs, st, g, start, end, tokens)| == end - start
    ensures Row(bs, st, g, start, end, tokens)[i] == if ToSave(bs, st, g, start, end, tokens, start + i) then g.ids[start + i] else 0
  {
  }

  ghost predicate GroupSaves(bs: nat, st: ReqState, g: Group, start: nat, end: nat, tokens: nat) {
    exists b: nat :: ToSave(bs, st, g, start, end, tokens, b)
  }

  lemma RowBlankExactlyWhen(bs: nat, st: ReqState, g: Group, start: nat, end: nat, tokens: nat)
    requires start < end && GroupCovers(st, g, end) && end <= |st.exists_|
    ensures Blank(Row(bs, st, g, start, end, tokens)) <==> !GroupSaves(bs, st, g, start, end, tokens)
  {
    var row := Row(bs, st, g, start, end, tokens);
    RowHas(bs, st, g, start, end, tokens, 0);
    if GroupSaves(bs, st, g, start, end, tokens) {
      var b: nat :| ToSave(bs, st, g, start, end, tokens, b);
      RowHas(bs, st, g, start, end, tokens, b - start);
      assert row[b - start] != 0;
    } else {
      forall i | 0 <= i < |row| ensures row[i] == 0 { RowHas(bs, st, g, start, end, tokens, i); }
    }
  }

  /** A step hands a request over exactly if one of its groups has a block to save. */
  lemma MetaExactlyWhen(bs: nat, st: ReqState, computed: nat, scheduled: nat)
    requires bs > 0 && Covers(st, End(bs, st, computed + scheduled))
    ensures var start, end := computed / bs, End(bs, st, computed + scheduled);
            SaveMeta(bs, st, computed, scheduled).Some? <==>
              exists g :: 0 <= g < |st.groups| && GroupSaves(bs, st, st.groups[g], start, end, computed + scheduled)
  {
    var start, end, tokens := computed / bs, End(bs, st, computed + scheduled), computed + scheduled;
    if start < end {
      var rows := Rows(bs, st, start, end, tokens);
      forall g | 0 <= g < |st.groups| ensures Blank(rows[g]) <==> !GroupSaves(bs, st, st.groups[g], start, end, tokens) {
        RowBlankExactlyWhen(bs, st, st.groups[g], start, end, tokens);
      }
    }
  }

  // ---- what reaches an attention group ----

  /** The pairs of the blocks in start .. end that the store does not have, in order: what should be saved. */
  function Wanted(st: ReqState, ids: seq<int>, start: nat, end: nat): seq<Pair>
    requires start <= end <= |ids| && end <= |st.exists_| && end <= |st.hashes|
    decreases end - start
  {
    if start == end then []
    else (if st.exists_[start] then [] else [(ids[start], st.hashes[start])]) + Wanted(st, ids, start + 1, end)
  }

  lemma {:induction false} ForGroupIsWanted(st: ReqState, ids: seq<int>, start: nat, end: nat)
    requires start <= end <= |ids| && end <= |st.exists_| && end <= |st.hashes|
    requires forall b :: start <= b < end ==> ids[b] != 0
    ensures ForGroup(AttnRow(st, ids, start, end), st.hashes[start..end]) == Wanted(st, ids, start, end)
    decreases end - start
  {
    if start < end {
      ForGroupIsWanted(st, ids, start + 1, end);
      assert AttnRow(st, ids, start, end)[1..] == AttnRow(st, ids, start + 1, end);
      assert st.hashes[start..end][1..] == st.hashes[start + 1..end];
    }
  }

  /** A step for which no request is added would have handed over nothing. */
  lemma {:induction false} BlankHandsNothing(ids: seq<int>, hashes: seq<string>)
    requires |ids| == |hashes|
    ensures Blank(ids) <==> ForGroup(ids, hashes) == []
  {
    if ids != [] {
      BlankHandsNothing(ids[1..], hashes[1..]);
      assert Blank(ids) <==> ids[0] == 0 && Blank(ids[1..]);
    }
  }

  ghost predicate IsBlock(st: ReqState, ids: seq<int>, b: int, x: Pair)
    requires 0 <= b < |ids| && b < |st.exists_| && b < |st.hashes|
  {
    !st.exists_[b] && x == (ids[b], st.hashes[b])
  }

  /** Membership: exactly the blocks of the range that do not exist. */
  lemma {:induction false} WantedHas(st: ReqState, ids: seq<int>, start: nat, end: nat, x: Pair)
    requires start <= end <= |ids| && end <= |st.exists_| && end <= |st.hashes|
    ensures x in Wanted(st, ids, start, end) <==> exists b :: start <= b < end && IsBlock(st, ids, b, x)
    decreases end - start
  {
    if start < end {
      WantedHas(st, ids, start + 1, end, x);
      if !st.exists_[start] && x == (ids[start], st.hashes[start]) { assert IsBlock(st, ids, start, x); }
    }
  }

  lemma {:induction false} WantedSplits(st: ReqState, ids: seq<int>, start: nat, mid: nat, end: nat)
    requires start <= mid <= end <= |ids| && end <= |st.exists_| && end <= |st.hashes|
    ensures Wanted(st, ids, start, mid) + Wanted(st, ids, mid, end) == Wanted(st, ids, start, end)
    decreases mid - start
  {
    if start < mid {
      WantedSplits(st, ids, start + 1, mid, end);
      var x := if st.exists_[start] then [] else [(ids[start], st.hashes[start])];
      assert x + Wanted(st, ids, start + 1, mid) + Wanted(st, ids, mid, end)
          == x + (Wanted(st, ids, start + 1, mid) + Wanted(st, ids, mid, end));
    } else {
      assert Wanted(st, ids, start, mid) == [];
    }
  }

  /** Later blocks of the table do not matter. */
  lemma {:induction false} WantedPrefix(st: ReqState, ids: seq<int>, more: seq<int>, start: nat, end: nat)
    requires start <= end <= |ids| && end <= |st.exists_| && end <= |st.hashes|
    ensures Wanted(st, ids + more, start, end) == Wanted(st, ids, start, end)
    decreases end - start
  {
    if start < end { WantedPrefix(st, ids, more, start + 1, end); }
  }

  // ---- a request's life ----

  /** A scheduling step: the tokens it adds and the blocks it appends to the table of each group. */
  datatype Sched = Sched(scheduled: nat, newIds: seq<seq<int>>)

  function Tokens(first: nat, steps: seq<Sched>, i: nat): nat
    requires i <= |steps|
  {
    if i == 0 then first else Tokens(first, steps, i - 1) + steps[i - 1].scheduled
  }

  /** The table of group g after i steps. */
  function Table(st: ReqState, steps: seq<Sched>, g: nat, i: nat): seq<int>
    requires i <= |steps| && g < |st.groups| && forall j :: 0 <= j < |steps| ==> |steps[j].newIds| == |st.groups|
  {
    if i == 0 then st.groups[g].ids else Table(st, steps, g, i - 1) + steps[i - 1].newIds[g]
  }

  /** The request's state after build_connector_meta extended its tables for the i-th time. */
  function StateAt(st: ReqState, steps: seq<Sched>, i: nat): (r: ReqState)
    requires i <= |steps| && forall j :: 0 <= j < |steps| ==> |steps[j].newIds| == |st.groups|
    ensures |r.groups| == |st.groups|
  {
    st.(groups := seq(|st.groups|, g requires 0 <= g < |st.groups| => Group(st.groups[g].isMamba, Table(st, steps, g, i))))
  }

  /** Consecutive steps of one request; after every step the tables have the blocks that its tokens need. */
  ghost predicate Life(bs: nat, st: ReqState, first: nat, steps: seq<Sched>) {
    && bs > 0 && (forall j :: 0 <= j < |steps| ==> |steps[j].newIds| == |st.groups|)
    && forall i :: 0 < i <= |steps| ==> Covers(StateAt(st, steps, i), End(bs, st, Tokens(first, steps, i)))
  }

  /** What step i hands to the saves of group g: for_group of the metadata, nothing when there is none. */
  ghost function Handed(bs: nat, st: ReqState, first: nat, steps: seq<Sched>, i: nat, g: nat): seq<Pair>
    requires Life(bs, st, first, steps) && i < |steps| && g < |st.groups|
  {
    var now := StateAt(st, steps, i + 1);
    assert Covers(now, End(bs, st, Tokens(first, steps, i + 1)));
    var meta := SaveMeta(bs, now, Tokens(first, steps, i), steps[i].scheduled);
    if meta.None? then [] else GroupPairs(meta.value, g)
  }

  function GroupPairs(meta: ReqMeta, g: nat): seq<Pair> {
    if g < |meta.rows| && |meta.rows[g]| == |meta.hashes| then ForGroup(meta.rows[g], meta.hashes) else []
  }

  /** Everything the first n steps hand over. */
  ghost function AllHanded(bs: nat, st: ReqState, first: nat, steps: seq<Sched>, n: nat, g: nat): seq<Pair>
    requires Life(bs, st, first, steps) && n <= |steps| && g < |st.groups|
  {
    if n == 0 then [] else AllHanded(bs, st, first, steps, n - 1, g) + Handed(bs, st, first, steps, n - 1, g)
  }

  lemma DivMono(a: nat, b: nat, d: nat)
    requires a <= b && d > 0
    ensures a / d <= b / d
  {
    Arith.MulStep(b / d, d);
    Arith.DivBelow(a, b / d + 1, d);
  }

  /** Where the saves begin, capped at the prompt's blocks. */
  function From(bs: nat, st: ReqState, first: nat): nat
    requires bs > 0
  {
    Arith.Min(first / bs, |st.hashes|)
  }

  /** One call for an attention group: the range's blocks that do not exist. */
  lemma MetaIsWanted(bs: nat, st: ReqState, computed: nat, scheduled: nat, g: nat)
    requires bs > 0 && g < |st.groups| && !st.groups[g].isMamba && Covers(st, End(bs, st, computed + scheduled))
    requires forall b :: 0 <= b < |st.groups[g].ids| ==> st.groups[g].ids[b] != 0
    ensures End(bs, st, computed) <= End(bs, st, computed + scheduled) <= |st.groups[g].ids|
    ensures var meta := SaveMeta(bs, st, computed, scheduled);
            (if meta.None? then [] else GroupPairs(meta.value, g))
            == Wanted(st, st.groups[g].ids, End(bs, st, computed), End(bs, st, computed + scheduled))
  {
    var ids, start, end := st.groups[g].ids, Start(bs, computed), End(bs, st, computed + scheduled);
    assert GroupCovers(st, st.groups[g], end);
    DivMono(computed, computed + scheduled, bs);
    if start < end {
      var row := Rows(bs, st, start, end, computed + scheduled)[g];
      assert row == AttnRow(st, ids, start, end);
      ForGroupIsWanted(st, ids, start, end);
      BlankHandsNothing(row, st.hashes[start..end]);
    }
  }

  lemma HandedIsWanted(bs: nat, st: ReqState, first: nat, steps: seq<Sched>, i: nat, g: nat)
    requires Life(bs, st, first, steps) && i < |steps| && g < |st.groups| && !st.groups[g].isMamba
    requires NonZero(Table(st, steps, g, i + 1))
    ensures End(bs, st, Tokens(first, steps, i)) <= End(bs, st, Tokens(first, steps, i + 1)) <= |Table(st, steps, g, i + 1)|
    ensures |st.exists_| == |st.hashes|
    ensures Handed(bs, st, first, steps, i, g)
         == Wanted(st, Table(st, steps, g, i + 1), End(bs, st, Tokens(first, steps, i)), End(bs, st, Tokens(first, steps, i + 1)))
  {
    var now := StateAt(st, steps, i + 1);
    assert Covers(now, End(bs, st, Tokens(first, steps, i + 1)));
    MetaIsWanted(bs, now, Tokens(first, steps, i), steps[i].scheduled, g);
    WantedSame(st, now, Table(st, steps, g, i + 1), End(bs, st, Tokens(first, steps, i)), End(bs, st, Tokens(first, steps, i + 1)));
  }

  predicate NonZero(ids: seq<int>) { forall b :: 0 <= b < |ids| ==> ids[b] != 0 }

  lemma {:induction false} WantedSame(st: ReqState, now: ReqState, ids: seq<int>, start: nat, end: nat)
    requires start <= end <= |ids| && end <= |st.exists_| && end <= |st.hashes|
    requires now.exists_ == st.exists_ && now.hashes == st.hashes
    ensures Wanted(now, ids, start, end) == Wanted(st, ids, start, end)
    decreases end - start
  {
    if start < end { WantedSame(st, now, ids, start + 1, end); }
  }

  lemma {:induction false} TableNonZero(st: ReqState, steps: seq<Sched>, g: nat, i: nat, n: nat)
    requires i <= n <= |steps| && g < |st.groups| && (forall j :: 0 <= j < |steps| ==> |steps[j].newIds| == |st.groups|)
    requires NonZero(Table(st, steps, g, n))
    ensures NonZero(Table(st, steps, g, i))
    decreases n - i
  {
    if i < n {
      var front := Table(st, steps, g, n - 1);
      forall b | 0 <= b < |front| ensures front[b] != 0 { assert front[b] == Table(st, steps, g, n)[b]; }
      TableNonZero(st, steps, g, i, n - 1);
    }
  }

  /** Main result: whatever the sizes of the steps, what they hand to an attention group, one after the other, is exactly
      the list of the prompt's full blocks that the store does not have, from the first step's first block to the last full
      one: each once, with its own id and hash, existing and partial blocks never. */
  lemma {:induction false} StepsTile(bs: nat, st: ReqState, first: nat, steps: seq<Sched>, n: nat, g: nat)
    requires Life(bs, st, first, steps) && 0 < n <= |steps| && g < |st.groups| && !st.groups[g].isMamba
    requires NonZero(Table(st, steps, g, n))
    ensures From(bs, st, first) <= End(bs, st, Tokens(first, steps, n)) <= |Table(st, steps, g, n)|
    ensures |st.exists_| == |st.hashes|
    ensures AllHanded(bs, st, first, steps, n, g)
         == Wanted(st, Table(st, steps, g, n), From(bs, st, first), End(bs, st, Tokens(first, steps, n)))
  {
    HandedIsWanted(bs, st, first, steps, n - 1, g);
    if n == 1 {
      assert AllHanded(bs, st, first, steps, 0, g) == [];
    } else {
      TableNonZero(st, steps, g, n - 1, n);
      StepsTile(bs, st, first, steps, n - 1, g);
      JoinStep(st, Table(st, steps, g, n - 1), steps[n - 1].newIds[g], From(bs, st, first),
               End(bs, st, Tokens(first, steps, n - 1)), End(bs, st, Tokens(first, steps, n)));
    }
  }

  lemma JoinStep(st: ReqState, ids: seq<int>, more: seq<int>, start: nat, mid: nat, end: nat)
    requires start <= mid <= end <= |ids + more| && mid <= |ids| && end <= |st.exists_| && end <= |st.hashes|
    ensures Wanted(st, ids, start, mid) + Wanted(st, ids + more, mid, end) == Wanted(st, ids + more, start, end)
  {
    WantedPrefix(st, ids, more, start, mid);
    WantedSplits(st, ids + more, start, mid, end);
  }

  // ---- mamba ----

  lemma {:induction false} ForGroupZeros(n: nat, last: int, hashes: seq<string>)
    requires |hashes| == n + 1
    ensures ForGroup(seq(n, _ => 0) + [last], hashes) == if last == 0 then [] else [(last, hashes[n])]
  {
    var row := seq(n, _ => 0) + [last];
    if n > 0 {
      ForGroupZeros(n - 1, last, hashes[1..]);
      assert row[1..] == seq(n - 1, _ => 0) + [last];
    } else {
      assert row == [last] && row[1..] == [] && hashes[1..] == [];
    }
  }

  /** A mamba group saves at most one state per step: that of the last block, and only if the step ends on its boundary
      and the store does not have it. */
  lemma MambaAtBoundaries(bs: nat, st: ReqState, ids: seq<int>, computed: nat, scheduled: nat)
    requires bs > 0 && |st.mambaExists| == |st.exists_| == |st.hashes|
    requires var end := End(bs, st, computed + scheduled);
             Start(bs, computed) < end <= |ids| && ids[end - 1] != 0
    ensures var start, end := Start(bs, computed), End(bs, st, computed + scheduled);
            var row := Row(bs, st, Group(true, ids), start, end, computed + scheduled);
            ForGroup(row, st.hashes[start..end])
            == if end * bs == computed + scheduled && !st.mambaExists[end - 1] then [(ids[end - 1], st.hashes[end - 1])] else []
  {
    var start, end, tokens := Start(bs, computed), End(bs, st, computed + scheduled), computed + scheduled;
    var save := SavesMamba(bs, st, end, tokens);
    assert Row(bs, st, Group(true, ids), start, end, tokens) == MambaRow(ids, start, end, save);
    ForGroupMamba(ids, st.hashes, start, end, save);
  }

  lemma ForGroupMamba(ids: seq<int>, hashes: seq<string>, start: nat, end: nat, save: bool)
    requires start < end <= |ids| && end <= |hashes| && ids[end - 1] != 0
    ensures ForGroup(MambaRow(ids, start, end, save), hashes[start..end]) == if save then [(ids[end - 1], hashes[end - 1])] else []
  {
    ForGroupZeros(end - start - 1, if save then ids[end - 1] else 0, hashes[start..end]);
  }
}
