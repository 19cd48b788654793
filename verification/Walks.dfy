/** The zero-terminated recursive walk that frees an index tree. */
module Walks {
  import opened Blocks
  import opened Ownership
  import opened BlockMap

  /** The blocks freed by the walk from `b`, in order: for an index block of level
      `level`, its children up to the first zero slot and then the block itself. */
  function Walk(d: seq<Block>, b: int, level: nat): (s: seq<int>)
    ensures |s| > 0 && s[|s| - 1] == b
    decreases level, K + 1
  {
    if level == 0 || !(0 <= b < |d|) then [b] else WalkSlots(d, d[b], level, 0) + [b]
  }

  function WalkSlots(d: seq<Block>, node: Block, level: nat, i: nat): seq<int>
    requires level > 0 && i <= K
    decreases level, K - i
  {
    if i == K || node[i] == 0 then [] else Walk(d, node[i], level - 1) + WalkSlots(d, node, level, i + 1)
  }

  /** The walk only looks at the blocks that it frees. */
  lemma {:induction false} WalkFrame(d: seq<Block>, d': seq<Block>, b: int, level: nat)
    requires |d'| == |d|
    requires forall x :: x in Walk(d, b, level) && 0 <= x < |d| ==> d'[x] == d[x]
    ensures Walk(d', b, level) == Walk(d, b, level)
    decreases level, K + 1
  {
    if level != 0 && 0 <= b < |d| {
      assert b in Walk(d, b, level);
      WalkSlotsFrame(d, d', d[b], level, 0);
    }
  }

  lemma {:induction false} WalkSlotsFrame(d: seq<Block>, d': seq<Block>, node: Block, level: nat, i: nat)
    requires level > 0 && i <= K && |d'| == |d|
    requires forall x :: x in WalkSlots(d, node, level, i) && 0 <= x < |d| ==> d'[x] == d[x]
    ensures WalkSlots(d', node, level, i) == WalkSlots(d, node, level, i)
    decreases level, K - i
  {
    if i != K && node[i] != 0 {
      WalkFrame(d, d', node[i], level - 1);
      WalkSlotsFrame(d, d', node, level, i + 1);
    }
  }

  /** The place `o` is in inode `ino`, in region `r`, at or under block `i` of level `j`. */
  ghost predicate Under(o: Owner, ino: int, r: int, j: int, i: int) {
    && o.At? && o.ino == ino && o.r == r && 0 <= o.j <= j && 0 <= o.k
    && Down(o.k, j - o.j) == i
  }

  /** An ancestor of a block in the tree is in the tree. */
  lemma {:induction false} DownBound(d: seq<Block>, f: FileMap, r: int, j: int, k: int, m: int)
    requires TreesOk(d, f) && 0 <= j && 0 <= m && j + m <= r < 4 && 0 <= k < |f[r][j]|
    ensures Down(k, m) < |f[r][j + m]|
    decreases m
  {
    if m > 0 {
      DownBound(d, f, r, j, k, m - 1);
      assert Links(d, f[r][j + m - 1 + 1], f[r][j + m - 1]);
    }
  }

  /** What is at or under a block: the block itself, and what is under its slots. */
  lemma UnderCases(owner: map<int, Owner>, files: seq<FileMap>, ino: int, r: int, j: int, i: int, x: int)
    requires PositionsOk(owner, files) && 0 <= ino < |files| && 0 <= j <= r < 4 && 0 <= i < |files[ino][r][j]|
    requires x in owner
    ensures
      var b := files[ino][r][j][i];
      && (Under(owner[x], ino, r, j, i) <==> x == b || UnderSlots(owner[x], ino, r, j, i, 0))
      && !(x == b && UnderSlots(owner[x], ino, r, j, i, 0))
      && (j == 0 ==> !UnderSlots(owner[x], ino, r, j, i, 0))
  {
    assert owner[files[ino][r][j][i]] == At(ino, r, j, i);
    if owner[x].At? {
      assert PositionHolds(files, owner[x], x);
    }
  }

  /** The walk frees exactly the blocks at or under its start, each once. */
  lemma {:induction false} WalkOwned(d: seq<Block>, lo: int, head: int, w: World, ino: int, r: int, j: int, i: int)
    requires WorldOk(d, lo, head, w) && 0 <= ino < |w.files| && TreesOk(d, w.files[ino])
    requires 0 <= j <= r < 4 && 0 <= i < |w.files[ino][r][j]|
    ensures
      var s := Walk(d, w.files[ino][r][j][i], j);
      && Distinct(s)
      && (forall x :: x in s <==> x in w.owner && Under(w.owner[x], ino, r, j, i))
    decreases j, K + 1
  {
    hide PositionsOk, FreeListOk, TreesOk, Under, UnderSlots;
    var b := w.files[ino][r][j][i];
    InRange(d, lo, head, w, ino, r, j, i);
    forall x | x in w.owner
      ensures Under(w.owner[x], ino, r, j, i) <==> x == b || UnderSlots(w.owner[x], ino, r, j, i, 0)
      ensures !(x == b && UnderSlots(w.owner[x], ino, r, j, i, 0))
      ensures j == 0 ==> !UnderSlots(w.owner[x], ino, r, j, i, 0)
    {
      UnderCases(w.owner, w.files, ino, r, j, i, x);
    }
    if j > 0 {
      SlotsOwned(d, lo, head, w, ino, r, j, i, 0);
    }
  }

  lemma InRange(d: seq<Block>, lo: int, head: int, w: World, ino: int, r: int, j: int, i: int)
    requires WorldOk(d, lo, head, w) && 0 <= ino < |w.files|
    requires 0 <= r < 4 && 0 <= j < 4 && 0 <= i < |w.files[ino][r][j]|
    ensures w.files[ino][r][j][i] in w.owner && 0 < w.files[ino][r][j][i] < |d|
  {
    assert w.owner[w.files[ino][r][j][i]] == At(ino, r, j, i);
  }

  /** The place `o` is under slot `s` or a later one of block `i` of level `j`. */
  ghost predicate UnderSlots(o: Owner, ino: int, r: int, j: int, i: int, s: int) {
    && o.At? && o.ino == ino && o.r == r && 0 <= o.j < j && 0 <= o.k
    && i * K + s <= Down(o.k, j - 1 - o.j) < i * K + K
  }

  lemma DistinctConcat(a: seq<int>, b: seq<int>)
    requires Distinct(a) && Distinct(b) && forall x :: x in a ==> x !in b
    ensures Distinct(a + b)
  {
    var s := a + b;
    forall i, j | 0 <= i < j < |s| ensures s[i] != s[j] {
      if i < |a| <= j {
        assert a[i] in a && b[j - |a|] in b;
      }
    }
  }

  lemma UnderSplit(o: Owner, ino: int, r: int, j: int, i: int, s: int)
    requires 1 <= j && 0 <= s < K
    ensures UnderSlots(o, ino, r, j, i, s) <==>
      Under(o, ino, r, j - 1, i * K + s) || UnderSlots(o, ino, r, j, i, s + 1)
    ensures !(Under(o, ino, r, j - 1, i * K + s) && UnderSlots(o, ino, r, j, i, s + 1))
  {
  }

  /** The child in slot `s`, or 0 past the last child. */
  lemma ChildSlot(d: seq<Block>, lo: int, head: int, w: World, ino: int, r: int, j: int, i: int, s: int)
    requires WorldOk(d, lo, head, w) && 0 <= ino < |w.files| && TreesOk(d, w.files[ino])
    requires 1 <= j <= r < 4 && 0 <= i < |w.files[ino][r][j]| && 0 <= s < K
    ensures 0 <= w.files[ino][r][j][i] < |d|
    ensures
      var v := d[w.files[ino][r][j][i]][s];
      if i * K + s < |w.files[ino][r][j - 1]| then v == w.files[ino][r][j - 1][i * K + s] && v > 0 else v == 0
  {
    var f := w.files[ino];
    assert w.owner[w.files[ino][r][j][i]].At?;
    assert Links(d, f[r][j - 1 + 1], f[r][j - 1]);
    if i * K + s < |f[r][j - 1]| {
      assert w.owner[w.files[ino][r][j - 1][i * K + s]] == At(ino, r, j - 1, i * K + s);
    }
  }

  /** Past the last child there is nothing under the remaining slots. */
  lemma NoneUnder(d: seq<Block>, lo: int, head: int, w: World, ino: int, r: int, j: int, i: int, s: nat, x: int)
    requires WorldOk(d, lo, head, w) && 0 <= ino < |w.files| && TreesOk(d, w.files[ino])
    requires 1 <= j <= r < 4 && |w.files[ino][r][j - 1]| <= i * K + s
    requires x in w.owner
    ensures !UnderSlots(w.owner[x], ino, r, j, i, s)
  {
    var o := w.owner[x];
    if UnderSlots(o, ino, r, j, i, s) {
      assert PositionHolds(w.files, o, x);
      DownBound(d, w.files[ino], r, o.j, o.k, j - 1 - o.j);
    }
  }

  lemma {:induction false} SlotsOwned(d: seq<Block>, lo: int, head: int, w: World, ino: int, r: int, j: int, i: int, s: nat)
    requires WorldOk(d, lo, head, w) && 0 <= ino < |w.files| && TreesOk(d, w.files[ino])
    requires 1 <= j <= r < 4 && 0 <= i < |w.files[ino][r][j]| && s <= K
    requires 0 <= w.files[ino][r][j][i] < |d|
    ensures
      var t := WalkSlots(d, d[w.files[ino][r][j][i]], j, s);
      && Distinct(t)
      && (forall x :: x in t <==> x in w.owner && UnderSlots(w.owner[x], ino, r, j, i, s))
    decreases j, K - s
  {
    hide WorldOk, TreesOk, Under, UnderSlots, Distinct, Walk;
    var f := w.files[ino];
    var node := d[f[r][j][i]];
    EmptyUnder(ino, r, j, i);
    if s != K {
      ChildSlot(d, lo, head, w, ino, r, j, i, s);
      if i * K + s >= |f[r][j - 1]| {
        forall x | x in w.owner ensures !UnderSlots(w.owner[x], ino, r, j, i, s) {
          NoneUnder(d, lo, head, w, ino, r, j, i, s, x);
        }
      } else {
        WalkOwned(d, lo, head, w, ino, r, j - 1, i * K + s);
        SlotsOwned(d, lo, head, w, ino, r, j, i, s + 1);
        forall x | x in w.owner
          ensures UnderSlots(w.owner[x], ino, r, j, i, s) <==>
            Under(w.owner[x], ino, r, j - 1, i * K + s) || UnderSlots(w.owner[x], ino, r, j, i, s + 1)
          ensures !(Under(w.owner[x], ino, r, j - 1, i * K + s) && UnderSlots(w.owner[x], ino, r, j, i, s + 1))
        {
          UnderSplit(w.owner[x], ino, r, j, i, s);
        }
        DistinctConcat(Walk(d, node[s], j - 1), WalkSlots(d, node, j, s + 1));
      }
    }
  }

  lemma EmptyUnder(ino: int, r: int, j: int, i: int)
    ensures Distinct([])
    ensures forall o :: !UnderSlots(o, ino, r, j, i, K)
  {
  }
}
