/** Labels of stored tensors, "label:chunk_id:tensor_key", and the file each is saved in. The source aborts on a malformed
    label; here such a label gives None. */
module Labels {
  import opened Wrappers

  const SEP := ':'

  predicate Forbidden(ch: char) { ch == ':' || ch == '/' || ch == '\\' }

  /** validate_label_component */
  predicate Good(c: string) { c != "" && c != "." && c != ".." && forall i :: 0 <= i < |c| ==> !Forbidden(c[i]) }

  /** std::string_view::find from `from` on; the length when there is none. */
  function Find(s: string, from: int): (r: int)
    requires 0 <= from <= |s|
    ensures from <= r <= |s| && (r < |s| ==> s[r] == SEP)
    ensures forall i :: from <= i < r ==> s[i] != SEP
    decreases |s| - from
  {
    if from == |s| || s[from] == SEP then from else Find(s, from + 1)
  }

  /** rfind below `to`; -1 when there is none. */
  function FindLast(s: string, to: int): (r: int)
    requires 0 <= to <= |s|
    ensures -1 <= r < to && (r >= 0 ==> s[r] == SEP)
    ensures forall i :: r < i < to ==> s[i] != SEP
  {
    if to == 0 then -1 else if s[to - 1] == SEP then to - 1 else FindLast(s, to - 1)
  }

  function ParseGroupKey(g: string): Option<(string, string)> {
    var sep := Find(g, 0);
    if sep == |g| || Find(g, sep + 1) != |g| then None
    else if Good(g[..sep]) && Good(g[sep + 1..]) then Some((g[..sep], g[sep + 1..])) else None
  }

  function ParseFullLabel(s: string): Option<(string, string)> {
    var first, last := Find(s, 0), FindLast(s, |s|);
    if first == |s| || first == last then None
    else if ParseGroupKey(s[..last]).Some? && Good(s[last + 1..]) then Some((s[..last], s[last + 1..])) else None
  }

  function MakeGroupKey(name: string, chunk: string): Option<string> {
    if Good(name) && Good(chunk) then Some(name + [SEP] + chunk) else None
  }

  function MakeFullLabel(group: string, tensor: string): Option<string> {
    if ParseGroupKey(group).Some? && Good(tensor) then Some(group + [SEP] + tensor) else None
  }

  // ---- round trips ----

  lemma FindIs(s: string, from: int, k: int)
    requires 0 <= from <= k <= |s| && (k < |s| ==> s[k] == SEP) && forall i :: from <= i < k ==> s[i] != SEP
    ensures Find(s, from) == k
  {
  }

  lemma FindLastIs(s: string, to: int, k: int)
    requires 0 <= k < to <= |s| && s[k] == SEP && forall i :: k < i < to ==> s[i] != SEP
    ensures FindLast(s, to) == k
  {
  }

  lemma GoodHasNoSep(c: string)
    requires Good(c)
    ensures forall i :: 0 <= i < |c| ==> c[i] != SEP
  {
    assert Forbidden(SEP);
  }

  /** parse_group_key undoes make_group_key, and accepts nothing else. */
  lemma GroupKeyRoundTrip(name: string, chunk: string)
    requires Good(name) && Good(chunk)
    ensures ParseGroupKey(name + [SEP] + chunk) == Some((name, chunk))
  {
    var g := name + [SEP] + chunk;
    GoodHasNoSep(name);
    GoodHasNoSep(chunk);
    FindIs(g, 0, |name|);
    FindIs(g, |name| + 1, |g|);
    assert g[..|name|] == name && g[|name| + 1..] == chunk;
  }

  lemma ParsedGroupKey(g: string)
    ensures ParseGroupKey(g).Some? <==> exists l, c :: MakeGroupKey(l, c) == Some(g)
    ensures ParseGroupKey(g).Some? ==> MakeGroupKey(ParseGroupKey(g).value.0, ParseGroupKey(g).value.1) == Some(g)
  {
    if ParseGroupKey(g).Some? {
      var sep := Find(g, 0);
      assert g == g[..sep] + [SEP] + g[sep + 1..];
      assert MakeGroupKey(g[..sep], g[sep + 1..]) == Some(g);
    }
    if l, c :| MakeGroupKey(l, c) == Some(g) { GroupKeyRoundTrip(l, c); }
  }

  /** parse_full_label undoes make_full_label. */
  lemma FullLabelRoundTrip(group: string, tensor: string)
    requires ParseGroupKey(group).Some? && Good(tensor)
    ensures ParseFullLabel(group + [SEP] + tensor) == Some((group, tensor))
  {
    var s, sep := group + [SEP] + tensor, Find(group, 0);
    GoodHasNoSep(tensor);
    assert s[sep] == group[sep] == SEP;
    FindIs(s, 0, sep);
    FindLastIs(s, |s|, |group|);
    assert s[..|group|] == group && s[|group| + 1..] == tensor;
  }

  lemma ParsedFullLabel(s: string)
    ensures ParseFullLabel(s).Some? <==> exists g, t :: MakeFullLabel(g, t) == Some(s)
    ensures ParseFullLabel(s).Some? ==> MakeFullLabel(ParseFullLabel(s).value.0, ParseFullLabel(s).value.1) == Some(s)
  {
    if ParseFullLabel(s).Some? {
      var last := FindLast(s, |s|);
      assert last >= 0;
      assert s == s[..last] + [SEP] + s[last + 1..];
      assert MakeFullLabel(s[..last], s[last + 1..]) == Some(s);
    }
    if g, t :| MakeFullLabel(g, t) == Some(s) { FullLabelRoundTrip(g, t); }
  }

  // ---- files ----

  type Path = seq<string>

  /** The chunk id in directory names of two characters. */
  function Pieces(c: string): seq<string> {
    if |c| <= 2 then if c == "" then [] else [c] else [c[..2]] + Pieces(c[2..])
  }

  function Joined(p: seq<string>): string { if p == [] then "" else p[0] + Joined(p[1..]) }

  lemma {:induction false} PiecesJoin(c: string)
    ensures Joined(Pieces(c)) == c
    ensures c != "" ==> Pieces(c) != []
    ensures forall i :: 0 <= i < |Pieces(c)| ==> 0 < |Pieces(c)[i]| <= 2
  {
    if |c| > 2 {
      PiecesJoin(c[2..]);
      assert Pieces(c)[1..] == Pieces(c[2..]);
      assert c == c[..2] + c[2..];
    } else if c != "" {
      assert Pieces(c)[1..] == [];
    }
  }

  /** Piece i is the two characters from 2 * i on, or the one that is left. */
  lemma {:induction false} PieceAt(c: string, i: nat)
    requires i < |Pieces(c)|
    ensures |Pieces(c)| == (|c| + 1) / 2 && 2 * i < |c|
    ensures Pieces(c)[i] == if 2 * i + 2 <= |c| then c[2 * i..2 * i + 2] else c[2 * i..]
    decreases |c|
  {
    if |c| > 2 {
      PieceAt(c[2..], if i == 0 then 0 else i - 1);
      if i > 0 {
        assert Pieces(c)[i] == Pieces(c[2..])[i - 1];
        assert c[2..][2 * i - 2..] == c[2 * i..];
        if 2 * i + 2 <= |c| { assert c[2..][2 * i - 2..2 * i] == c[2 * i..2 * i + 2]; }
      } else {
        assert Pieces(c)[0] == c[..2] == c[0..2];
      }
    } else {
      assert c[0..] == c && (|c| == 2 ==> c[0..2] == c);
    }
  }

  const SUFFIX := ".bin"

  /** get_path_from_label with the suffix that storage appends, under the chunks directory. */
  function PathOf(name: string, chunk: string, tensor: string): Path { [name] + Pieces(chunk) + [tensor + SUFFIX] }

  predicate IsDot(c: string) { c == "." || c == ".." }

  /** What the file system makes of "." and "..". */
  function Resolve(done: Path, p: Path): Path
    decreases |p|
  {
    if p == [] then done
    else if p[0] == "." then Resolve(done, p[1..])
    else if p[0] == ".." && done != [] && done[|done| - 1] != ".." then Resolve(done[..|done| - 1], p[1..])
    else Resolve(done + [p[0]], p[1..])
  }

  predicate NoDots(p: Path) { forall i :: 0 <= i < |p| ==> !IsDot(p[i]) }

  lemma {:induction false} ResolveNoDots(done: Path, p: Path)
    requires NoDots(p)
    ensures Resolve(done, p) == done + p
    decreases |p|
  {
    if p != [] {
      assert !IsDot(p[0]);
      assert NoDots(p[1..]) by { forall i | 0 <= i < |p[1..]| ensures !IsDot(p[1..][i]) { assert p[1..][i] == p[i + 1]; } }
      ResolveNoDots(done + [p[0]], p[1..]);
      assert done + [p[0]] + p[1..] == done + p;
    } else {
      assert done + p == done;
    }
  }

  lemma {:induction false} ResolveShrinks(done: Path, p: Path)
    ensures |Resolve(done, p)| <= |done| + |p|
    decreases |p|
  {
    if p != [] {
      ResolveShrinks(done, p[1..]);
      if done != [] { ResolveShrinks(done[..|done| - 1], p[1..]); }
      ResolveShrinks(done + [p[0]], p[1..]);
    }
  }

  lemma {:induction false} ResolveDrops(done: Path, p: Path)
    requires done != [] && !IsDot(done[|done| - 1]) && !NoDots(p)
    ensures |Resolve(done, p)| < |done| + |p|
    decreases |p|
  {
    if p[0] == "." {
      ResolveShrinks(done, p[1..]);
    } else if p[0] == ".." {
      ResolveShrinks(done[..|done| - 1], p[1..]);
    } else {
      var i :| 0 <= i < |p| && IsDot(p[i]);
      assert p[1..][i - 1] == p[i];
      ResolveDrops(done + [p[0]], p[1..]);
    }
  }

  lemma GoodIsNotDot(c: string)
    ensures Good(c) ==> !IsDot(c)
    ensures !IsDot(c + SUFFIX) && |c + SUFFIX| > 2
  {
    assert |c + SUFFIX| == |c| + 4;
  }

  /** A label's path resolves to itself exactly when no two-character piece of its chunk id is "." or "..". */
  lemma PathIsLiteral(name: string, chunk: string, tensor: string)
    requires Good(name) && Good(chunk) && Good(tensor)
    ensures Resolve([], PathOf(name, chunk, tensor)) == PathOf(name, chunk, tensor) <==> NoDots(Pieces(chunk))
  {
    var p := PathOf(name, chunk, tensor);
    GoodIsNotDot(name);
    GoodIsNotDot(tensor);
    if NoDots(Pieces(chunk)) {
      assert NoDots(p);
      ResolveNoDots([], p);
    } else {
      var i :| 0 <= i < |Pieces(chunk)| && IsDot(Pieces(chunk)[i]);
      assert p[1..][i] == Pieces(chunk)[i];
      ResolveDrops([name], p[1..]);
      assert [] + [p[0]] == [name];
    }
  }

  lemma SuffixCancels(a: string, b: string)
    requires a + SUFFIX == b + SUFFIX
    ensures a == b
  {
    assert |a| == |b|;
    assert a == (a + SUFFIX)[..|a|] && b == (b + SUFFIX)[..|b|];
  }

  /** Different labels have different paths. */
  lemma PathInjective(l: string, c: string, t: string, l': string, c': string, t': string)
    requires PathOf(l, c, t) == PathOf(l', c', t')
    ensures l == l' && c == c' && t == t'
  {
    var p, p' := PathOf(l, c, t), PathOf(l', c', t');
    assert |Pieces(c)| == |Pieces(c')|;
    assert p[0] == l && p'[0] == l';
    assert p[|p| - 1] == t + SUFFIX && p'[|p| - 1] == t' + SUFFIX;
    SuffixCancels(t, t');
    assert Pieces(c) == p[1..|p| - 1] && Pieces(c') == p'[1..|p| - 1];
    PiecesJoin(c);
    PiecesJoin(c');
  }

  /** No label's file is a directory on the way to another label's file. */
  lemma FilesAreNotDirectories(l: string, c: string, t: string, l': string, c': string, t': string)
    requires Good(c) && Good(c')
    ensures !(PathOf(l, c, t) < PathOf(l', c', t'))
  {
    var p, p' := PathOf(l, c, t), PathOf(l', c', t');
    PiecesJoin(c);
    PiecesJoin(c');
    GoodIsNotDot(t);
    assert |p[|p| - 1]| > 2 && |p| >= 3;
    forall i | 0 < i < |p'| - 1 ensures |p'[i]| <= 2 { assert p'[i] == Pieces(c')[i - 1]; }
  }

  // ---- which labels share a file ----

  lemma {:induction false} ResolveConcat(done: Path, p: Path, q: Path)
    ensures Resolve(done, p + q) == Resolve(Resolve(done, p), q)
    decreases |p|
  {
    if p == [] {
      assert p + q == q;
    } else {
      assert (p + q)[1..] == p[1..] + q;
      ResolveConcat(done, p[1..], q);
      if done != [] { ResolveConcat(done[..|done| - 1], p[1..], q); }
      ResolveConcat(done + [p[0]], p[1..], q);
    }
  }

  /** The component in front of a ".." does not matter. */
  lemma Popped(a: Path, x: string, r: Path)
    requires NoDots(a) && !IsDot(x)
    ensures Resolve([], a + [x] + [".."] + r) == Resolve(a, r)
  {
    var p := a + [x];
    ResolveConcat([], p + [".."], r);
    ResolveConcat([], p, [".."]);
    ResolveNoDots([], p);
    assert [] + p == p && p[..|p| - 1] == a && [".."][1..] == [];
    assert Resolve(p, [".."]) == Resolve(a, []) == a;
  }

  /** A final "." does not matter either. */
  lemma Skipped(a: Path, f: string)
    ensures Resolve([], a + ["."] + [f]) == Resolve([], a + [f])
  {
    ResolveConcat([], a + ["."], [f]);
    ResolveConcat([], a, ["."]);
    ResolveConcat([], a, [f]);
    assert ["."][1..] == [];
    assert Resolve(Resolve([], a), ["."]) == Resolve(Resolve([], a), []);
  }

  lemma {:induction false} PieceSizes(c: string)
    ensures forall i :: 0 <= i < |Pieces(c)| - 1 ==> |Pieces(c)[i]| == 2
    ensures 2 * |Pieces(c)| == |c| + |c| % 2
  {
    if |c| > 2 { PieceSizes(c[2..]); }
  }

  /** Exchanging a piece that is not the last. */
  lemma {:induction false} PiecesReplace(c: string, k: nat, x: string)
    requires k < |Pieces(c)| - 1 && |x| == 2
    ensures 2 * k + 2 <= |c| && Pieces(c[..2 * k] + x + c[2 * k + 2..]) == Pieces(c)[k := x]
  {
    PieceSizes(c);
    var d := c[..2 * k] + x + c[2 * k + 2..];
    if k == 0 {
      assert d[..2] == x && d[2..] == c[2..];
    } else {
      PiecesReplace(c[2..], k - 1, x);
      assert d[..2] == c[..2];
      assert d[2..] == c[2..][..2 * (k - 1)] + x + c[2..][2 * (k - 1) + 2..];
    }
  }

  lemma {:induction false} PiecesInit(c: string)
    requires |c| % 2 == 1
    ensures Pieces(c) != [] && Pieces(c)[|Pieces(c)| - 1] == c[|c| - 1..]
    ensures Pieces(c[..|c| - 1]) == Pieces(c)[..|Pieces(c)| - 1]
  {
    if |c| > 2 {
      PiecesInit(c[2..]);
      var d := c[..|c| - 1];
      assert d[..2] == c[..2] && d[2..] == c[2..][..|c[2..]| - 1];
      if |d| == 2 { assert c[2..][..0] == ""; }
    }
  }

  /** (l, c, t) and (l', c', t') are different well-formed labels of one file. */
  ghost predicate SharesFile(l: string, c: string, t: string, l': string, c': string, t': string) {
    && Good(l') && Good(c') && Good(t') && (l', c', t') != (l, c, t)
    && Resolve([], PathOf(l', c', t')) == Resolve([], PathOf(l, c, t))
  }

  /** A first ".." right after the label name: any other name gives the same file. */
  lemma SharesByName(l: string, c: string, t: string)
    requires Good(l) && Good(c) && Good(t) && Pieces(c) != [] && Pieces(c)[0] == ".."
    ensures SharesFile(l, c, t, l + "x", c, t)
  {
    var r := Pieces(c)[1..] + [t + SUFFIX];
    GoodIsNotDot(l);
    assert (l + "x")[|l|] == 'x' && |l + "x"| == |l| + 1;
    assert PathOf(l, c, t) == [] + [l] + [".."] + r;
    assert PathOf(l + "x", c, t) == [] + [l + "x"] + [".."] + r;
    Popped([], l, r);
    Popped([], l + "x", r);
  }

  lemma GoodReplace(c: string, k: nat, x: string)
    requires Good(c) && 2 * k + 2 <= |c| && |c| >= 3 && (x == "aa" || x == "bb")
    ensures Good(c[..2 * k] + x + c[2 * k + 2..])
  {
    var d := c[..2 * k] + x + c[2 * k + 2..];
    forall i | 0 <= i < |d| ensures !Forbidden(d[i]) {
      if 2 * k <= i < 2 * k + 2 { assert d[i] == x[i - 2 * k]; } else { assert d[i] == c[i]; }
    }
  }

  /** A first ".." further on: any other piece in front of it gives the same file. */
  lemma SharesByPiece(l: string, c: string, t: string, k: nat, c': string)
    requires Good(l) && Good(c) && Good(t) && k + 1 < |Pieces(c)| && Pieces(c)[k + 1] == ".." && NoDots(Pieces(c)[..k + 1])
    requires var x := if Pieces(c)[k] == "aa" then "bb" else "aa";
             2 * k + 2 <= |c| && c' == c[..2 * k] + x + c[2 * k + 2..]
    ensures SharesFile(l, c, t, l, c', t)
  {
    var x := if Pieces(c)[k] == "aa" then "bb" else "aa";
    PieceSizes(c);
    PiecesReplace(c, k, x);
    GoodReplace(c, k, x);
    GoodIsNotDot(l);
    SameAround(l, Pieces(c), k, x, t + SUFFIX);
    assert Pieces(c')[k] == x;
  }

  /** Exchanging the component in front of the first "..". */
  lemma SameAround(l: string, p: Path, k: nat, x: string, f: string)
    requires k + 1 < |p| && p[k + 1] == ".." && NoDots(p[..k + 1]) && !IsDot(l) && !IsDot(x)
    ensures Resolve([], [l] + p[k := x] + [f]) == Resolve([], [l] + p + [f])
  {
    var a, r := [l] + p[..k], p[k + 2..] + [f];
    DotFreeFront(l, p, k);
    assert [l] + p + [f] == a + [p[k]] + [".."] + r;
    assert [l] + p[k := x] + [f] == a + [x] + [".."] + r;
    Popped(a, p[k], r);
    Popped(a, x, r);
  }

  lemma DotFreeFront(l: string, p: Path, k: nat)
    requires k < |p| && NoDots(p[..k + 1]) && !IsDot(l)
    ensures NoDots([l] + p[..k]) && !IsDot(p[k])
  {
    forall i | 0 <= i <= k ensures !IsDot(p[i]) { assert p[..k + 1][i] == p[i]; }
  }

  /** A piece ".": it is the last one, and the file is that of the chunk id without it. */
  lemma SharesByDot(l: string, c: string, t: string, i: nat)
    requires Good(l) && Good(c) && Good(t) && i < |Pieces(c)| && Pieces(c)[i] == "."
    requires forall k :: 0 <= k < |Pieces(c)| ==> Pieces(c)[k] != ".."
    ensures |c| > 0 && SharesFile(l, c, t, l, c[..|c| - 1], t)
  {
    PieceSizes(c);
    assert i == |Pieces(c)| - 1;
    PiecesJoin(c);
    if |c| % 2 == 0 { EvenPieces(c); }
    PiecesInit(c);
    var d := c[..|c| - 1];
    assert c != ".";
    assert |c| >= 3;
    if |c| == 3 { assert Pieces(c)[0] == d; }
    assert Good(d);
    var a := [l] + Pieces(d);
    assert PathOf(l, c, t) == a + ["."] + [t + SUFFIX];
    assert PathOf(l, d, t) == a + [t + SUFFIX];
    Skipped(a, t + SUFFIX);
  }

  lemma {:induction false} EvenPieces(c: string)
    requires |c| % 2 == 0
    ensures forall i :: 0 <= i < |Pieces(c)| ==> |Pieces(c)[i]| == 2
  {
    if |c| > 2 { EvenPieces(c[2..]); }
  }

  /** The first ".." of a path, if any. */
  lemma {:induction false} FirstUp(p: Path, i: nat) returns (k: nat)
    requires i < |p| && p[i] == ".." && forall j :: 0 <= j < |p| - 1 ==> |p[j]| == 2
    ensures k < |p| && p[k] == ".." && NoDots(p[..k])
  {
    k := 0;
    while p[k] != ".."
      invariant k <= i && forall j :: 0 <= j < k ==> p[j] != ".."
      decreases i - k
    {
      k := k + 1;
    }
    forall j | 0 <= j < |p[..k]| ensures !IsDot(p[..k][j]) { assert p[..k][j] == p[j] && |p[j]| == 2; }
  }

  /** Main result: a well-formed label shares its file with another one whose chunk id is no longer than its own exactly
      when its chunk id has a piece "." or "..". */
  lemma SharedExactlyWithDots(l: string, c: string, t: string)
    requires Good(l) && Good(c) && Good(t)
    ensures (exists l', c', t' :: |c'| <= |c| && SharesFile(l, c, t, l', c', t')) <==> !NoDots(Pieces(c))
  {
    if NoDots(Pieces(c)) {
      forall l', c', t' | |c'| <= |c| && Good(l') && Good(c') && Good(t') && (l', c', t') != (l, c, t)
        ensures !SharesFile(l, c, t, l', c', t')
      {
        LiteralIsOwn(l, c, t, l', c', t');
      }
    } else {
      var l', c', t' := SharedWith(l, c, t);
    }
  }

  lemma LiteralIsOwn(l: string, c: string, t: string, l': string, c': string, t': string)
    requires Good(l) && Good(c) && Good(t) && NoDots(Pieces(c)) && |c'| <= |c|
    ensures !SharesFile(l, c, t, l', c', t')
  {
    PathIsLiteral(l, c, t);
    if Good(l') && Good(c') && Good(t') {
      var p, p' := PathOf(l, c, t), PathOf(l', c', t');
      PathIsLiteral(l', c', t');
      if p == p' { PathInjective(l, c, t, l', c', t'); }
      PieceSizes(c);
      PieceSizes(c');
      if !NoDots(Pieces(c')) { ShorterWhenDotted(l', c', t'); }
    }
  }

  lemma ShorterWhenDotted(l: string, c: string, t: string)
    requires Good(l) && !NoDots(Pieces(c))
    ensures |Resolve([], PathOf(l, c, t))| < |Pieces(c)| + 2
  {
    var p := PathOf(l, c, t);
    GoodIsNotDot(l);
    var i :| 0 <= i < |Pieces(c)| && IsDot(Pieces(c)[i]);
    assert p[1..][i] == Pieces(c)[i];
    ResolveDrops([l], p[1..]);
    assert [] + [p[0]] == [l];
  }

  lemma SharedWith(l: string, c: string, t: string) returns (l': string, c': string, t': string)
    requires Good(l) && Good(c) && Good(t) && !NoDots(Pieces(c))
    ensures |c'| <= |c| && SharesFile(l, c, t, l', c', t')
  {
    PieceSizes(c);
    var i :| 0 <= i < |Pieces(c)| && IsDot(Pieces(c)[i]);
    if exists j :: 0 <= j < |Pieces(c)| && Pieces(c)[j] == ".." {
      var j :| 0 <= j < |Pieces(c)| && Pieces(c)[j] == "..";
      var k := FirstUp(Pieces(c), j);
      if k == 0 {
        l', c', t' := l + "x", c, t;
        SharesByName(l, c, t);
      } else {
        l', t' := l, t;
        c' := c[..2 * (k - 1)] + (if Pieces(c)[k - 1] == "aa" then "bb" else "aa") + c[2 * (k - 1) + 2..];
        SharesByPiece(l, c, t, k - 1, c');
      }
    } else {
      SharesByDot(l, c, t, i);
      l', c', t' := l, c[..|c| - 1], t;
    }
  }

  /** Without the bound on the length every label shares its file: a detour through a directory leads back. */
  lemma DetourShares(l: string, c: string, t: string)
    requires Good(l) && Good(c) && Good(t)
    ensures SharesFile(l, c, t, l, "zz.." + c, t)
  {
    var d := "zz.." + c;
    assert d[..2] == "zz" && d[2..] == ".." + c && (".." + c)[..2] == ".." && (".." + c)[2..] == c;
    PiecesJoin(c);
    assert Pieces(d) == ["zz", ".."] + Pieces(c);
    forall i | 0 <= i < |d| ensures !Forbidden(d[i]) { if i >= 4 { assert d[i] == c[i - 4]; } }
    var r := Pieces(c) + [t + SUFFIX];
    GoodIsNotDot(l);
    assert PathOf(l, d, t) == [l] + ["zz"] + [".."] + r;
    Popped([l], "zz", r);
    assert PathOf(l, c, t) == [l] + r;
    ResolveConcat([], [l], r);
    assert [l][1..] == [] && [] + [l] == [l];
  }

  /** An instance. */
  lemma DotsCollide()
    ensures Good("x") && Good("..abcd") && Good("tk") && Good("ab") && Good("cd")
    ensures Resolve([], PathOf("x", "..abcd", "tk")) == Resolve([], PathOf("ab", "cd", "tk"))
  {
    var c := "..abcd";
    assert Pieces(c[2..][2..]) == ["cd"] && c[2..][..2] == "ab" && c[..2] == "..";
    assert Pieces(c) == ["..", "ab", "cd"];
    var p, f := PathOf("x", c, "tk"), "tk" + SUFFIX;
    assert p == ["x", "..", "ab", "cd", f];
    assert p[1..] == ["..", "ab", "cd", f] && p[1..][1..] == ["ab", "cd", f];
    assert Resolve(["x"], p[1..]) == Resolve([], p[1..][1..]);
  }

  /** Two labels without dot pieces have one file exactly if they are the same label. */
  lemma DotFreeFilesDiffer(l: string, c: string, t: string, l': string, c': string, t': string)
    requires Good(l) && Good(c) && Good(t) && NoDots(Pieces(c))
    requires Good(l') && Good(c') && Good(t') && NoDots(Pieces(c'))
    ensures Resolve([], PathOf(l, c, t)) == Resolve([], PathOf(l', c', t')) <==> (l, c, t) == (l', c', t')
  {
    PathIsLiteral(l, c, t);
    PathIsLiteral(l', c', t');
    if PathOf(l, c, t) == PathOf(l', c', t') { PathInjective(l, c, t, l', c', t'); }
  }
}
