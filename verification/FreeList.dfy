/** The free-list allocator as functions on the disk contents. */
module FreeList {
  import opened Blocks
  import opened Ownership

  /** A block write: out-of-range block numbers change nothing. */
  function Put(d: seq<Block>, x: int, b: Block): (d': seq<Block>)
    ensures |d'| == |d|
  {
    if 0 <= x < |d| then d[x := b] else d
  }

  /** The first slot from `i` on that is (`used`) or is not in use, or `K`. */
  function Scan(b: Block, used: bool, i: int): (s: int)
    requires 0 <= i <= K
    ensures i <= s <= K
    ensures forall t :: i <= t < s ==> (b[t] != 0) != used
    ensures s < K ==> (b[s] != 0) == used
    decreases K - i
  {
    if i == K || (b[i] != 0) == used then i else Scan(b, used, i + 1)
  }

  datatype Allocation = Allocation(d: seq<Block>, head: int, result: int)

  function Allocate(d: seq<Block>, head: int): Allocation {
    if head == 0 || !(0 <= head < |d|) then Allocation(d, head, -1)
    else
      var b := d[head];
      var s := Scan(b, true, 1);
      if s < K then
        Allocation(Put(Put(d, head, b[s := 0]), b[s], ZeroBlock()), head, b[s])
      else
        Allocation(Put(Put(d, head, b[0 := 0]), head, ZeroBlock()), b[0], head)
  }

  datatype Release = Release(d: seq<Block>, head: int, ok: bool)

  /** Frees `x`, which the caller has checked against the inclusive bound `|d|`. */
  function Free(d: seq<Block>, head: int, x: int): (f: Release)
    ensures |f.d| == |d|
  {
    var h := if head == 0 then x else head;
    if !(0 <= h < |d|) then Release(d, h, false)
    else
      var s := Scan(d[h], false, 1);
      if s < K then Release(Put(d, h, d[h][s := x]), h, true)
      else Release(Put(d, x, ZeroBlock()[0 := h]), x, 0 <= x < |d|)
  }

  ghost function AllocatedWorld(d: seq<Block>, w: World): World
    requires w.chain != [] && 0 <= w.chain[|w.chain| - 1] < |d|
  {
    var top := |w.chain| - 1;
    var s := Scan(d[w.chain[top]], true, 1);
    if s < K then w.(owner := w.owner[d[w.chain[top]][s] := Held])
    else w.(chain := w.chain[..top], owner := w.owner[w.chain[top] := Held])
  }

  ghost function FreedWorld(d: seq<Block>, w: World, x: int): World
    requires w.chain != [] && 0 <= w.chain[|w.chain| - 1] < |d|
  {
    var top := |w.chain| - 1;
    var s := Scan(d[w.chain[top]], false, 1);
    if s < K then w.(owner := w.owner[x := Slot(w.chain[top], s)])
    else w.(chain := w.chain + [x], owner := w.owner[x := Chain(top + 1)])
  }

  /** Changing a block that is in no inode leaves the trees alone. */
  lemma PositionsFrame(owner: map<int, Owner>, files: seq<FileMap>, x: int, o: Owner)
    requires PositionsOk(owner, files)
    requires x in owner && !owner[x].At? && !o.At?
    ensures PositionsOk(owner[x := o], files)
  {
  }

  lemma TakeSlot(d: seq<Block>, head: int, chain: seq<int>, owner: map<int, Owner>, s: int, d': seq<Block>)
    requires FreeListOk(d, head, chain, owner) && head != 0
    requires 1 <= s < K && d[head][s] != 0
    requires d' == d[head := d[head][s := 0]][d[head][s] := ZeroBlock()]
    ensures FreeListOk(d', head, chain, owner[d[head][s] := Held])
  {
    assert owner[d[head][s]] == Slot(head, s);
  }

  lemma TakeHead(d: seq<Block>, head: int, chain: seq<int>, owner: map<int, Owner>, d': seq<Block>)
    requires FreeListOk(d, head, chain, owner) && head != 0
    requires forall t :: 1 <= t < K ==> d[head][t] == 0
    requires d' == d[head := ZeroBlock()]
    ensures FreeListOk(d', d[head][0], chain[..|chain| - 1], owner[head := Held])
  {
  }

  lemma PutSlot(d: seq<Block>, head: int, chain: seq<int>, owner: map<int, Owner>, s: int, x: int, d': seq<Block>)
    requires FreeListOk(d, head, chain, owner) && head != 0
    requires x in owner && owner[x] == Held
    requires 1 <= s < K && d[head][s] == 0
    requires d' == d[head := d[head][s := x]]
    ensures FreeListOk(d', head, chain, owner[x := Slot(head, s)])
  {
  }

  lemma PutHead(d: seq<Block>, head: int, chain: seq<int>, owner: map<int, Owner>, x: int, d': seq<Block>)
    requires FreeListOk(d, head, chain, owner) && head != 0
    requires x in owner && owner[x] == Held
    requires d' == d[x := ZeroBlock()[0 := head]]
    ensures FreeListOk(d', x, chain + [x], owner[x := Chain(|chain|)])
  {
  }

  /** The head of a list that is not empty. */
  lemma HeadFacts(d: seq<Block>, head: int, chain: seq<int>, owner: map<int, Owner>)
    requires FreeListOk(d, head, chain, owner) && head != 0
    ensures chain != [] && head == chain[|chain| - 1] && 0 < head < |d|
    ensures head in owner && owner[head] == Chain(|chain| - 1) && d[head][0] == Below(chain, |chain| - 1)
    ensures forall s :: 1 <= s < K && d[head][s] != 0 ==>
      d[head][s] in owner && owner[d[head][s]] == Slot(head, s) && 0 < d[head][s] < |d|
  {
    assert owner[chain[|chain| - 1]] == Chain(|chain| - 1);
  }

  lemma AllocateOk(d: seq<Block>, lo: int, head: int, w: World)
    requires WorldOk(d, lo, head, w) && head != 0
    ensures w.chain != [] && head == w.chain[|w.chain| - 1] && 0 < head < |d|
    ensures
      var a := Allocate(d, head);
      && WorldOk(a.d, lo, a.head, AllocatedWorld(d, w))
      && 0 < a.result < |d| && a.result in w.owner && w.owner[a.result].Free()
      && AllocatedWorld(d, w).owner == w.owner[a.result := Held]
      && AllocatedWorld(d, w).files == w.files
      && |a.d| == |d| && a.d[a.result] == ZeroBlock()
      && (forall x :: 0 <= x < |d| && (x in w.owner ==> !w.owner[x].Free()) ==> a.d[x] == d[x])
  {
    hide FreeListOk, PositionsOk;
    HeadFacts(d, head, w.chain, w.owner);
    var a, s := Allocate(d, head), Scan(d[head], true, 1);
    if s < K {
      TakeSlot(d, head, w.chain, w.owner, s, a.d);
    } else {
      assert d[head := d[head][0 := 0]][head := ZeroBlock()] == d[head := ZeroBlock()];
      TakeHead(d, head, w.chain, w.owner, a.d);
    }
    PositionsFrame(w.owner, w.files, a.result, Held);
  }

  lemma FreeOk(d: seq<Block>, lo: int, head: int, w: World, x: int)
    requires WorldOk(d, lo, head, w) && head != 0
    requires x in w.owner && w.owner[x] == Held
    ensures w.chain != [] && head == w.chain[|w.chain| - 1] && 0 < head < |d| && lo <= x < |d|
    ensures
      var f := Free(d, head, x);
      var w' := FreedWorld(d, w, x);
      && f.ok && f.head != 0 && |f.d| == |d| && WorldOk(f.d, lo, f.head, w')
      && w'.files == w.files
      && w'.owner[x].Free() && w'.owner == w.owner[x := w'.owner[x]]
      && (forall y :: 0 <= y < |d| && y != x && (y in w.owner ==> !w.owner[y].Free()) ==> f.d[y] == d[y])
  {
    hide FreeListOk, PositionsOk;
    HeadFacts(d, head, w.chain, w.owner);
    var f, w', s := Free(d, head, x), FreedWorld(d, w, x), Scan(d[head], false, 1);
    if s < K {
      PutSlot(d, head, w.chain, w.owner, s, x, f.d);
    } else {
      PutHead(d, head, w.chain, w.owner, x, f.d);
    }
    PositionsFrame(w.owner, w.files, x, w'.owner[x]);
  }

  /** The list head is 0 exactly when no block is free. */
  lemma EmptyIff(d: seq<Block>, head: int, chain: seq<int>, owner: map<int, Owner>)
    requires FreeListOk(d, head, chain, owner)
    ensures head == 0 <==> NumFree(owner) == 0
  {
    if NumFree(owner) != 0 {
      var x := SomeFree(owner);
      var c := if owner[x].Slot? then owner[x].block else x;
      assert chain[owner[c].pos] == c && chain[|chain| - 1] in owner;
    }
    if head != 0 {
      assert head in FreeSet(owner);
    }
  }
}
