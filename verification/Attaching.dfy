/** Attaching an allocated block to the tree of an inode keeps the invariants. */
module Attaching {
  import opened Blocks
  import opened Ownership
  import opened BlockMap

  /** The free list does not depend on blocks that are not free. */
  lemma FreeListFrame(d: seq<Block>, head: int, chain: seq<int>, owner: map<int, Owner>,
                      d': seq<Block>, owner': map<int, Owner>)
    requires FreeListOk(d, head, chain, owner)
    requires |d'| == |d| && owner'.Keys == owner.Keys
    requires forall x :: x in owner && owner[x].Free() ==> owner'[x] == owner[x] && d'[x] == d[x]
    requires forall x :: x in owner && !owner[x].Free() ==> !owner'[x].Free()
    ensures FreeListOk(d', head, chain, owner')
  {
  }

  lemma AttachPositions(w: World, ino: int, r: int, j: int, x: int)
    requires PositionsOk(w.owner, w.files) && 0 <= ino < |w.files| && 0 <= r < 4 && 0 <= j < 4
    requires x in w.owner && w.owner[x] == Held
    ensures
      var w' := Attach(w, ino, r, j, x);
      PositionsOk(w'.owner, w'.files)
  {
    var w' := Attach(w, ino, r, j, x);
    var n := |w.files[ino][r][j]|;
    forall i, r', j', k | 0 <= i < |w'.files| && 0 <= r' < 4 && 0 <= j' < 4 && 0 <= k < |w'.files[i][r'][j']|
      ensures w'.files[i][r'][j'][k] in w'.owner && w'.owner[w'.files[i][r'][j'][k]] == At(i, r', j', k)
    {
      if i == ino && r' == r && j' == j && k == n {
      } else {
        assert w'.files[i][r'][j'][k] == w.files[i][r'][j'][k];
      }
    }
    forall y | y in w'.owner && w'.owner[y].At? ensures PositionHolds(w'.files, w'.owner[y], y) {
      if y != x {
        assert PositionHolds(w.files, w.owner[y], y);
      }
    }
  }

  lemma TierDistinct(owner: map<int, Owner>, files: seq<FileMap>, ino: int, r: int, j: int)
    requires PositionsOk(owner, files) && 0 <= ino < |files| && 0 <= r < 4 && 0 <= j < 4
    ensures Distinct(files[ino][r][j])
  {
    var s := files[ino][r][j];
    forall a, b | 0 <= a < b < |s| ensures s[a] != s[b] {
      assert owner[files[ino][r][j][a]] == At(ino, r, j, a);
      assert owner[files[ino][r][j][b]] == At(ino, r, j, b);
    }
  }

  /** Where the next block of level `j` of region `r` is linked. */
  ghost predicate LinkedAt(d: seq<Block>, f: FileMap, r: int, j: int, x: int, d': seq<Block>)
    requires 0 <= j <= r < 4
  {
    if j == r then d' == d
    else
      var n := |f[r][j]|;
      && n < K * |f[r][j + 1]|
      && 0 <= f[r][j + 1][n / K] < |d|
      && d' == d[f[r][j + 1][n / K] := d[f[r][j + 1][n / K]][n % K := x]]
  }

  lemma AttachTrees(d: seq<Block>, w: World, ino: int, r: int, j: int, x: int, d': seq<Block>)
    requires PositionsOk(w.owner, w.files) && 0 <= ino < |w.files| && 0 <= j <= r < 4
    requires TreesOk(d, w.files[ino]) && LinkedAt(d, w.files[ino], r, j, x, d')
    requires x in w.owner && w.owner[x] == Held && 0 <= x < |d|
    requires j > 0 ==> d[x] == ZeroBlock()
    ensures TreesOk(d', Push(w.files[ino], r, j, x))
  {
    var f, f' := w.files[ino], Push(w.files[ino], r, j, x);
    forall r', j' | 0 <= j' < r' < 4 ensures Links(d', f'[r'][j' + 1], f'[r'][j']) {
      assert Links(d, f[r'][j' + 1], f[r'][j']);
      if r' == r && j' == j {
        TierDistinct(w.owner, w.files, ino, r, j + 1);
        AddChild(d, f[r][j + 1], f[r][j], x, d');
      } else {
        var ps := f[r'][j' + 1];
        forall i | 0 <= i < |ps| ensures d'[ps[i]] == d[ps[i]] {
          assert w.owner[w.files[ino][r'][j' + 1][i]] == At(ino, r', j' + 1, i);
          if j < r {
            assert w.owner[w.files[ino][r][j + 1][|f[r][j]| / K]] == At(ino, r, j + 1, |f[r][j]| / K);
          }
        }
        LinksFrame(d, d', f[r'][j' + 1], f[r'][j']);
        if r' == r && j' + 1 == j {
          assert d'[x] == d[x] by {
            if j < r {
              assert w.owner[w.files[ino][r][j + 1][|f[r][j]| / K]].At?;
            }
          }
          AddParent(d', f[r'][j' + 1], f[r'][j'], x);
        }
      }
    }
  }

  lemma AttachOk(d: seq<Block>, lo: int, head: int, w: World, ino: int, r: int, j: int, x: int, d': seq<Block>)
    requires WorldOk(d, lo, head, w) && 0 <= ino < |w.files| && 0 <= j <= r < 4
    requires TreesOk(d, w.files[ino]) && LinkedAt(d, w.files[ino], r, j, x, d')
    requires x in w.owner && w.owner[x] == Held
    requires j > 0 ==> d[x] == ZeroBlock()
    ensures
      var w' := Attach(w, ino, r, j, x);
      WorldOk(d', lo, head, w') && TreesOk(d', w'.files[ino])
  {
    var w' := Attach(w, ino, r, j, x);
    AttachTrees(d, w, ino, r, j, x, d');
    AttachPositions(w, ino, r, j, x);
    if j < r {
      var p := w.files[ino][r][j + 1][|w.files[ino][r][j]| / K];
      assert w.owner[p] == At(ino, r, j + 1, |w.files[ino][r][j]| / K);
    }
    FreeListFrame(d, head, w.chain, w.owner, d', w'.owner);
  }

  /** A block that appending to inode `ino` must not touch. */
  ghost predicate Stable(o: Owner, ino: int) {
    !o.Free() && (o.At? ==> o.ino != ino || o.j == 0)
  }

  ghost predicate Extends(f: FileMap, f': FileMap) {
    forall r, j :: 0 <= r < 4 && 0 <= j < 4 ==> f[r][j] <= f'[r][j]
  }

  /** What appending the held block `b` to inode `ino` may change: it only takes
      free blocks, only adds to the inode's trees, and writes only index blocks
      of that inode and blocks that were free. */
  ghost predicate Evolves(d: seq<Block>, w: World, d': seq<Block>, w': World, ino: int, b: int)
    requires 0 <= ino < |w.files|
  {
    && |d'| == |d| && |w'.files| == |w.files| && w'.owner.Keys == w.owner.Keys
    && (forall i :: 0 <= i < |w.files| && i != ino ==> w'.files[i] == w.files[i])
    && Extends(w.files[ino], w'.files[ino])
    && (forall x :: x in w.owner && !w.owner[x].Free() && x != b ==> w'.owner[x] == w.owner[x])
    && (forall x :: x in w.owner && w'.owner[x].Free() ==> w.owner[x].Free())
    && b in w.owner && (w'.owner[b] == Held || (w'.owner[b].At? && w'.owner[b].j == 0))
    && (forall x :: 0 <= x < |d| && (x in w.owner ==> Stable(w.owner[x], ino)) ==> d'[x] == d[x])
  }

  lemma EvolvesAllocate(d0: seq<Block>, w0: World, d: seq<Block>, w: World, d': seq<Block>, w': World,
                        ino: int, b: int, x: int)
    requires 0 <= ino < |w0.files| && Evolves(d0, w0, d, w, ino, b)
    requires b in w.owner && !w.owner[b].Free()
    requires x in w.owner && w.owner[x].Free()
    requires w'.owner == w.owner[x := Held] && w'.files == w.files && |d'| == |d|
    requires SameOutsideFree(d, d', w.owner)
    ensures Evolves(d0, w0, d', w', ino, b)
  {
    forall y | 0 <= y < |d0| && (y in w0.owner ==> Stable(w0.owner[y], ino)) ensures d'[y] == d0[y] {
      assert y in w.owner ==> !w.owner[y].Free();
    }
  }

  lemma EvolvesAttach(d0: seq<Block>, w0: World, d: seq<Block>, w: World, d': seq<Block>,
                      ino: int, b: int, r: int, j: int, x: int)
    requires 0 <= ino < |w0.files| && Evolves(d0, w0, d, w, ino, b)
    requires PositionsOk(w.owner, w.files) && 0 <= j <= r < 4
    requires x in w0.owner && (if x == b then j == 0 else w0.owner[x].Free())
    requires LinkedAt(d, w.files[ino], r, j, x, d')
    ensures Evolves(d0, w0, d', Attach(w, ino, r, j, x), ino, b)
  {
    if j < r {
      var p := w.files[ino][r][j + 1][|w.files[ino][r][j]| / K];
      assert w.owner[p] == At(ino, r, j + 1, |w.files[ino][r][j]| / K);
      assert p in w0.owner && p != b && (w0.owner[p].Free() || w0.owner[p] == w.owner[p]);
    }
  }

  lemma TreesFrame(d: seq<Block>, d': seq<Block>, w: World, ino: int)
    requires PositionsOk(w.owner, w.files) && 0 <= ino < |w.files|
    requires TreesOk(d, w.files[ino]) && |d'| == |d|
    requires forall x :: x in w.owner ==> 0 <= x < |d|
    requires forall x :: x in w.owner && w.owner[x].At? && w.owner[x].ino == ino ==> d'[x] == d[x]
    ensures TreesOk(d', w.files[ino])
  {
    var f := w.files[ino];
    forall r, j | 0 <= j < r < 4 ensures Links(d', f[r][j + 1], f[r][j]) {
      assert Links(d, f[r][j + 1], f[r][j]);
      var ps := f[r][j + 1];
      forall i | 0 <= i < |ps| ensures d'[ps[i]] == d[ps[i]] {
        assert w.owner[w.files[ino][r][j + 1][i]] == At(ino, r, j + 1, i);
      }
      LinksFrame(d, d', f[r][j + 1], f[r][j]);
    }
  }

  /** Appending to one inode leaves the block map of every other inode alone. */
  lemma OthersFrame(d: seq<Block>, w: World, d': seq<Block>, w': World, ino: int, b: int, i: int, rec: InodeRec)
    requires PositionsOk(w.owner, w.files) && 0 <= ino < |w.files| && 0 <= i < |w.files| && i != ino
    requires Evolves(d, w, d', w', ino, b)
    requires FileOk(d, rec, w.files[i])
    requires forall x :: x in w.owner ==> 0 <= x < |d|
    ensures FileOk(d', rec, w'.files[i])
  {
    TreesFrame(d, d', w, i);
  }
}
