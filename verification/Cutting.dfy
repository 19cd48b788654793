/** Cutting a map down to its first blocks: what stays and what is freed. */
module Cutting {
  import opened Blocks
  import opened Ownership
  import opened BlockMap
  import opened Attaching
  import opened Walks

  /** The first `k` elements, or all of them. */
  function Take(s: seq<int>, k: int): (t: seq<int>)
    requires 0 <= k
    ensures t <= s && |t| == if k <= |s| then k else |s|
  {
    if k <= |s| then s[..k] else s
  }

  /** The map of the first `n` blocks of `f`. */
  ghost function Cut(f: FileMap, n: int): FileMap {
    seq(4, r requires 0 <= r < 4 => seq(4, j requires 0 <= j < 4 => Take(f[r][j], Need(r, j, n))))
  }

  lemma CutShape(f: FileMap, n: int, m: int)
    requires 0 <= n <= m && Shaped(f, m)
    ensures Shaped(Cut(f, n), n) && Extends(Cut(f, n), f)
  {
    forall r, j | 0 <= r < 4 && 0 <= j < 4
      ensures |Cut(f, n)[r][j]| == Need(r, j, n) && Cut(f, n)[r][j] <= f[r][j]
    {
      NeedMonotone(r, j, n, m);
    }
  }

  /** Place `o` is a place of inode `ino` that its map `f` does not have. */
  ghost predicate Dropped(o: Owner, ino: int, f: FileMap) {
    o.At? && o.ino == ino && !(0 <= o.r < 4 && 0 <= o.j < 4 && 0 <= o.k < |f[o.r][o.j]|)
  }

  /** Takes the blocks that `f` does not have out of inode `ino`; they are then held. */
  ghost function Detach(w: World, ino: int, f: FileMap): World
    requires 0 <= ino < |w.files|
  {
    w.(owner := map x | x in w.owner :: if Dropped(w.owner[x], ino, f) then Held else w.owner[x],
       files := w.files[ino := f])
  }

  lemma DetachPositions(w: World, ino: int, f: FileMap)
    requires PositionsOk(w.owner, w.files) && 0 <= ino < |w.files| && Extends(f, w.files[ino])
    ensures PositionsOk(Detach(w, ino, f).owner, Detach(w, ino, f).files)
  {
    var w' := Detach(w, ino, f);
    forall i, r, j, k | 0 <= i < |w'.files| && 0 <= r < 4 && 0 <= j < 4 && 0 <= k < |w'.files[i][r][j]|
      ensures w'.files[i][r][j][k] in w'.owner && w'.owner[w'.files[i][r][j][k]] == At(i, r, j, k)
    {
      assert w.files[ino][r][j][..|f[r][j]|] == f[r][j];
      assert w'.files[i][r][j][k] == w.files[i][r][j][k];
    }
    forall x | x in w'.owner && w'.owner[x].At? ensures PositionHolds(w'.files, w'.owner[x], x) {
      var o := w.owner[x];
      assert PositionHolds(w.files, o, x);
      if o.ino == ino {
        assert f[o.r][o.j] <= w.files[ino][o.r][o.j];
      }
    }
  }

  lemma DetachOk(d: seq<Block>, lo: int, head: int, w: World, ino: int, f: FileMap)
    requires WorldOk(d, lo, head, w) && 0 <= ino < |w.files| && Extends(f, w.files[ino])
    ensures WorldOk(d, lo, head, Detach(w, ino, f))
    ensures NumFree(Detach(w, ino, f).owner) == NumFree(w.owner)
  {
    var w' := Detach(w, ino, f);
    DetachPositions(w, ino, f);
    assert w'.owner.Keys == w.owner.Keys;
    FreeListFrame(d, head, w.chain, w.owner, d, w'.owner);
    assert FreeSet(w'.owner) == FreeSet(w.owner);
  }

  /** How many blocks are at or under the first `i` blocks of level `j`. */
  function Span(f: FileMap, r: int, j: int, i: int): int
    requires 0 <= r < 4 && 0 <= j < 4
    decreases j
  {
    i + if j == 0 then 0 else Span(f, r, j - 1, Least(|f[r][j - 1]|, K * i))
  }

  function Least(a: int, b: int): int {
    if a < b then a else b
  }

  /** The length of the walk is the number of blocks at or under its start. */
  lemma {:induction false} WalkLength(d: seq<Block>, lo: int, head: int, w: World, ino: int, r: int, j: int, i: int)
    requires WorldOk(d, lo, head, w) && 0 <= ino < |w.files| && TreesOk(d, w.files[ino])
    requires 0 <= j <= r < 4 && 0 <= i < |w.files[ino][r][j]|
    ensures
      var f := w.files[ino];
      |Walk(d, f[r][j][i], j)| == Span(f, r, j, i + 1) - Span(f, r, j, i)
    decreases j, K + 1
  {
    hide WorldOk, TreesOk;
    if j > 0 {
      ChildSlot(d, lo, head, w, ino, r, j, i, 0);
      SlotsLength(d, lo, head, w, ino, r, j, i, 0);
    }
  }

  lemma {:induction false} SlotsLength(d: seq<Block>, lo: int, head: int, w: World, ino: int, r: int, j: int, i: int, s: nat)
    requires WorldOk(d, lo, head, w) && 0 <= ino < |w.files| && TreesOk(d, w.files[ino])
    requires 1 <= j <= r < 4 && 0 <= i < |w.files[ino][r][j]| && s <= K
    requires 0 <= w.files[ino][r][j][i] < |d|
    ensures
      var f := w.files[ino];
      |WalkSlots(d, d[f[r][j][i]], j, s)| ==
        Span(f, r, j - 1, Least(|f[r][j - 1]|, K * i + K)) - Span(f, r, j - 1, Least(|f[r][j - 1]|, K * i + s))
    decreases j, K - s
  {
    hide WorldOk, TreesOk, Walk, Span;
    var f := w.files[ino];
    if s != K {
      ChildSlot(d, lo, head, w, ino, r, j, i, s);
      if i * K + s < |f[r][j - 1]| {
        WalkLength(d, lo, head, w, ino, r, j - 1, i * K + s);
        SlotsLength(d, lo, head, w, ino, r, j, i, s + 1);
      }
    }
  }

  /** The blocks freed with region `r`, in order. */
  function RegionWalk(d: seq<Block>, f: FileMap, r: int): seq<int>
    requires 1 <= r < 4
  {
    if f[r][r] == [] then [] else Walk(d, f[r][r][0], r)
  }

  function RegionSize(f: FileMap, r: int): int
    requires 1 <= r < 4
  {
    |f[r][0]| + |f[r][1]| + (if r >= 2 then |f[r][2]| else 0) + (if r >= 3 then |f[r][3]| else 0)
  }

  ghost predicate InRegion(o: Owner, ino: int, r: int) {
    o.At? && o.ino == ino && o.r == r && o.j <= r
  }

  /** The walk from the root of region `r` frees the whole region, each block once. */
  lemma RegionWalkOwned(d: seq<Block>, lo: int, head: int, w: World, ino: int, r: int)
    requires WorldOk(d, lo, head, w) && 0 <= ino < |w.files| && TreesOk(d, w.files[ino])
    requires 1 <= r < 4 && |w.files[ino][r][r]| <= 1
    ensures
      var s := RegionWalk(d, w.files[ino], r);
      && Distinct(s) && |s| == RegionSize(w.files[ino], r)
      && (forall x :: x in s <==> x in w.owner && InRegion(w.owner[x], ino, r))
  {
    var f := w.files[ino];
    if f[r][r] != [] {
      WalkOwned(d, lo, head, w, ino, r, r, 0);
      WalkLength(d, lo, head, w, ino, r, r, 0);
    }
    forall x | x in w.owner && InRegion(w.owner[x], ino, r)
      ensures f[r][r] != [] && Under(w.owner[x], ino, r, r, 0)
    {
      var o := w.owner[x];
      assert PositionHolds(w.files, o, x);
      DownBound(d, f, r, o.j, o.k, r - o.j);
    }
    RegionSizes(d, f, r);
  }

  lemma RegionSizes(d: seq<Block>, f: FileMap, r: int)
    requires TreesOk(d, f) && 1 <= r < 4 && |f[r][r]| <= 1
    ensures if f[r][r] == [] then RegionSize(f, r) == 0 else RegionSize(f, r) == Span(f, r, r, 1) - Span(f, r, r, 0)
  {
    hide TreesOk, Links;
    forall j | 0 <= j < r ensures |f[r][j]| <= K * |f[r][j + 1]| {
      FewerParents(d, f, r, j);
    }
    NoSpan(f, r, r);
  }

  lemma FewerParents(d: seq<Block>, f: FileMap, r: int, j: int)
    requires TreesOk(d, f) && 0 <= j < r < 4
    ensures |f[r][j]| <= K * |f[r][j + 1]|
  {
    assert Links(d, f[r][j + 1], f[r][j]);
  }

  lemma {:induction false} NoSpan(f: FileMap, r: int, j: int)
    requires 0 <= r < 4 && 0 <= j < 4
    ensures Span(f, r, j, 0) == 0
    decreases j
  {
    if j > 0 {
      NoSpan(f, r, j - 1);
    }
  }

  lemma EmptyMaps(f: FileMap, g: FileMap)
    requires forall r, j :: 0 <= r < 4 && 0 <= j < 4 ==> f[r][j] == [] && g[r][j] == []
    ensures f == g
  {
    forall r | 0 <= r < 4 ensures f[r] == g[r] {
    }
  }

  lemma NoNeed(r: int, j: int)
    requires 0 <= r < 4 && 0 <= j < 4
    ensures Need(r, j, 0) == 0
  {
  }

  lemma CutSize(f: FileMap, r: int, j: int)
    requires 0 <= r < 4 && 0 <= j < 4
    ensures |Cut(f, 0)[r][j]| <= Need(r, j, 0)
  {
  }

  /** A map without blocks is what is left of a map cut to nothing. */
  lemma CutAll(f: FileMap, g: FileMap)
    requires Shaped(g, 0)
    ensures Cut(f, 0) == g && forall r, j :: 0 <= r < 4 && 0 <= j < 4 ==> g[r][j] == []
  {
    hide Need, Cut;
    forall r, j | 0 <= r < 4 && 0 <= j < 4 ensures g[r][j] == [] && Cut(f, 0)[r][j] == [] {
      NoNeed(r, j);
      CutSize(f, r, j);
      assert |g[r][j]| == Need(r, j, 0);
    }
    EmptyMaps(Cut(f, 0), g);
  }
}
