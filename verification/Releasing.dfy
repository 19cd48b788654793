/** Freeing index trees: the recursive walks of the two callers. */
module Releasing {
  import opened Blocks
  import opened Ownership
  import opened BlockMap
  import opened Walks
  import opened Disk

  ghost predicate AllHeld(w: World, s: seq<int>) {
    forall x :: x in s ==> x in w.owner && w.owner[x] == Held
  }

  /** The blocks of `s` have become free; nothing else changed hands, and no block
      that is neither free nor in `s` was written. */
  ghost predicate Released(d: seq<Block>, w: World, d': seq<Block>, w': World, s: seq<int>) {
    && |d'| == |d| && w'.files == w.files && w'.owner.Keys == w.owner.Keys
    && (forall x :: x in s ==> x in w'.owner && w'.owner[x].Free())
    && (forall x :: x in w.owner && x !in s ==> w'.owner[x] == w.owner[x])
    && (forall x :: 0 <= x < |d| && x !in s && (x in w.owner ==> !w.owner[x].Free()) ==> d'[x] == d[x])
    && NumFree(w'.owner) == NumFree(w.owner) + |s|
  }

  lemma ReleasedNone(d: seq<Block>, w: World)
    ensures Released(d, w, d, w, [])
  {
  }

  lemma ReleasedOne(d: seq<Block>, w: World, d': seq<Block>, w': World, x: int)
    requires x in w.owner && w.owner[x] == Held && 0 <= x < |d|
    requires x in w'.owner && w'.owner[x].Free() && w'.owner == w.owner[x := w'.owner[x]]
    requires w'.files == w.files && SameOutsideFree(d, d', w'.owner)
    ensures Released(d, w, d', w', [x])
  {
    NumFreeMore(w.owner, x, w'.owner[x]);
  }

  lemma ReleasedMore(d0: seq<Block>, w0: World, d: seq<Block>, w: World, s: seq<int>,
                     d': seq<Block>, w': World, t: seq<int>)
    requires Released(d0, w0, d, w, s) && Released(d, w, d', w', t)
    requires AllHeld(w0, s)
    ensures Released(d0, w0, d', w', s + t)
  {
    forall x | x in s + t ensures x in w'.owner && w'.owner[x].Free() {
      if x !in t {
        assert x in s && w'.owner[x] == w.owner[x];
      }
    }
  }

  /** A part of the list that is still to be freed is untouched so far. */
  lemma StillHeld(d0: seq<Block>, w0: World, d: seq<Block>, w: World, done: seq<int>, mid: seq<int>, rest: seq<int>)
    requires Released(d0, w0, d, w, done)
    requires AllHeld(w0, done + mid + rest) && Distinct(done + mid + rest)
    ensures AllHeld(w, mid) && Distinct(mid) && AllHeld(w0, done)
    ensures forall x :: x in mid && 0 <= x < |d0| ==> d[x] == d0[x]
  {
    var all := done + mid + rest;
    forall x | x in mid ensures x !in done && x in all {
      var k :| 0 <= k < |mid| && mid[k] == x;
      assert all[|done| + k] == x;
      assert forall i :: 0 <= i < |done| ==> done[i] == all[i];
    }
    forall i, j | 0 <= i < j < |mid| ensures mid[i] != mid[j] {
      assert all[|done| + i] == mid[i] && all[|done| + j] == mid[j];
    }
    forall x | x in done ensures x in all {
    }
  }

  method FreeOne(disk: Disk, x: int) returns (ok: bool)
    requires disk.Sound() && disk.freelistHead != 0 && AllHeld(disk.w, [x])
    modifies disk`freelistHead, disk`w, disk.store
    ensures ok && disk.Sound() && disk.freelistHead != 0
    ensures Released(old(disk.D()), old(disk.w), disk.D(), disk.w, [x])
  {
    ghost var d, w := disk.D(), disk.w;
    assert x in [x];
    ok := disk.FreeHeld(x);
    ReleasedOne(d, w, disk.D(), disk.w, x);
  }

  lemma WalkStart(d: seq<Block>, lo: int, head: int, w: World, p: int, level: nat)
    requires WorldOk(d, lo, head, w) && 1 <= level && AllHeld(w, Walk(d, p, level))
    ensures 0 < lo <= p < |d| && Walk(d, p, level) == [] + WalkSlots(d, d[p], level, 0) + [p]
  {
    assert p in Walk(d, p, level);
  }

  /** The part of the walk for the child in slot `i` comes next. */
  lemma WalkNext(d: seq<Block>, p: int, buffer: Block, level: nat, i: nat, done: seq<int>)
    requires level > 0 && i < K && buffer[i] != 0
    ensures
      var mid := Walk(d, buffer[i], level - 1);
      && done + WalkSlots(d, buffer, level, i) + [p] == done + mid + (WalkSlots(d, buffer, level, i + 1) + [p])
      && done + WalkSlots(d, buffer, level, i) + [p] == (done + mid) + WalkSlots(d, buffer, level, i + 1) + [p]
  {
  }

  /** Before the next child is freed: its walk is as it was at the start. */
  lemma ChildReady(d0: seq<Block>, w0: World, d: seq<Block>, w: World, p: int, buffer: Block, level: nat, i: nat,
                   done: seq<int>)
    requires level > 0 && i < K && buffer[i] != 0
    requires Released(d0, w0, d, w, done)
    requires AllHeld(w0, done + WalkSlots(d0, buffer, level, i) + [p])
    requires Distinct(done + WalkSlots(d0, buffer, level, i) + [p])
    ensures
      var mid := Walk(d0, buffer[i], level - 1);
      && Walk(d, buffer[i], level - 1) == mid && AllHeld(w, mid) && Distinct(mid) && AllHeld(w0, done)
      && (level == 1 ==> mid == [buffer[i]])
  {
    hide Released, AllHeld, Distinct;
    WalkNext(d0, p, buffer, level, i, done);
    StillHeld(d0, w0, d, w, done, Walk(d0, buffer[i], level - 1), WalkSlots(d0, buffer, level, i + 1) + [p]);
    ReleasedLength(d0, w0, d, w, done);
    WalkFrame(d0, d, buffer[i], level - 1);
  }

  lemma ReleasedLength(d0: seq<Block>, w0: World, d: seq<Block>, w: World, done: seq<int>)
    requires Released(d0, w0, d, w, done)
    ensures |d| == |d0|
  {
  }

  /** At the end of the slots only the index block itself is left. */
  lemma LastReady(d0: seq<Block>, w0: World, d: seq<Block>, w: World, p: int, done: seq<int>)
    requires Released(d0, w0, d, w, done) && AllHeld(w0, done + [p]) && Distinct(done + [p])
    ensures AllHeld(w, [p]) && AllHeld(w0, done)
  {
    assert done + [p] + [] == done + [p];
    StillHeld(d0, w0, d, w, done, [p], []);
  }

  /** Frees the tree under index block `p`: its children in order, then itself. */
  method RemoveDatablocksUtility(disk: Disk, p: int, level: nat) returns (ok: bool)
    requires disk.Sound() && disk.freelistHead != 0 && 1 <= level <= 3
    requires AllHeld(disk.w, Walk(disk.D(), p, level)) && Distinct(Walk(disk.D(), p, level))
    modifies disk`freelistHead, disk`w, disk.store
    ensures ok && disk.Sound() && disk.freelistHead != 0
    ensures Released(old(disk.D()), old(disk.w), disk.D(), disk.w, Walk(old(disk.D()), p, level))
    decreases level
  {
    hide WorldOk, Released, AllHeld, Distinct, Walk;
    ghost var d, w, all := disk.D(), disk.w, Walk(disk.D(), p, level);
    WalkStart(d, disk.inodeBlocks + 1, disk.freelistHead, w, p, level);
    if p <= 0 {
      return false;
    }
    var _, buffer := disk.ReadDataBlock(p);
    ghost var done: seq<int> := [];
    ReleasedNone(d, w);
    var i := 0;
    while i < K
      invariant 0 <= i <= K && disk.Sound() && disk.freelistHead != 0
      invariant all == done + WalkSlots(d, buffer, level, i) + [p]
      invariant Released(d, w, disk.D(), disk.w, done)
    {
      if buffer[i] == 0 {
        break;
      }
      ChildReady(d, w, disk.D(), disk.w, p, buffer, level, i, done);
      WalkNext(d, p, buffer, level, i, done);
      ghost var d1, w1, mid := disk.D(), disk.w, Walk(d, buffer[i], level - 1);
      if level == 1 {
        var _ := FreeOne(disk, buffer[i]);
      } else {
        var _ := RemoveDatablocksUtility(disk, buffer[i], level - 1);
      }
      ReleasedMore(d, w, d1, w1, done, disk.D(), disk.w, mid);
      done := done + mid;
      i := i + 1;
    }
    assert all == done + [p];
    LastReady(d, w, disk.D(), disk.w, p, done);
    ghost var d1, w1 := disk.D(), disk.w;
    ok := FreeOne(disk, p);
    ReleasedMore(d, w, d1, w1, done, disk.D(), disk.w, [p]);
  }

  /** The same walk, for the blocks of a deleted inode. */
  method FreeIndirectBlocks(disk: Disk, p: int, indirection: nat) returns (ok: bool)
    requires disk.Sound() && disk.freelistHead != 0 && 1 <= indirection <= 3
    requires AllHeld(disk.w, Walk(disk.D(), p, indirection)) && Distinct(Walk(disk.D(), p, indirection))
    modifies disk`freelistHead, disk`w, disk.store
    ensures ok && disk.Sound() && disk.freelistHead != 0
    ensures Released(old(disk.D()), old(disk.w), disk.D(), disk.w, Walk(old(disk.D()), p, indirection))
    decreases indirection
  {
    hide WorldOk, Released, AllHeld, Distinct, Walk;
    ghost var d, w, all := disk.D(), disk.w, Walk(disk.D(), p, indirection);
    WalkStart(d, disk.inodeBlocks + 1, disk.freelistHead, w, p, indirection);
    var readable, buffer := disk.ReadBlock(p);
    if !readable {
      return false;
    }
    ghost var done: seq<int> := [];
    ReleasedNone(d, w);
    for i := 0 to K
      invariant disk.Sound() && disk.freelistHead != 0
      invariant all == done + WalkSlots(d, buffer, indirection, i) + [p]
      invariant Released(d, w, disk.D(), disk.w, done)
    {
      var x := buffer[i];
      if x == 0 {
        break;
      }
      ChildReady(d, w, disk.D(), disk.w, p, buffer, indirection, i, done);
      WalkNext(d, p, buffer, indirection, i, done);
      ghost var d1, w1, mid := disk.D(), disk.w, Walk(d, x, indirection - 1);
      if indirection == 1 {
        ok := FreeOne(disk, x);
      } else {
        ok := FreeIndirectBlocks(disk, x, indirection - 1);
      }
      if !ok {
        return false;
      }
      ReleasedMore(d, w, d1, w1, done, disk.D(), disk.w, mid);
      done := done + mid;
    }
    assert all == done + [p];
    LastReady(d, w, disk.D(), disk.w, p, done);
    ghost var d1, w1 := disk.D(), disk.w;
    ok := FreeOne(disk, p);
    ReleasedMore(d, w, d1, w1, done, disk.D(), disk.w, [p]);
  }
}
