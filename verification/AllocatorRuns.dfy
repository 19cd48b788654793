/** The allocator over whole runs, and the one case in which freeing breaks it. */
module AllocatorRuns {
  import opened Blocks
  import opened Ownership
  import opened FreeList
  import opened BlockMap

  /** Place `o` really holds block `x`: a link of the free chain, a slot of a chain
      block, or a position in the trees of an inode. */
  ghost predicate Occupies(d: seq<Block>, w: World, o: Owner, x: int) {
    match o
    case Chain(p) => p < |w.chain| && w.chain[p] == x
    case Slot(c, s) => c in w.chain && 0 <= c < |d| && 1 <= s < K && d[c][s] == x
    case Held => x in w.owner && w.owner[x] == Held
    case At(_, _, _, _) => PositionHolds(w.files, o, x)
  }

  /** Every block of the data region is in exactly one place. */
  lemma ExactlyOneOwner(d: seq<Block>, lo: int, head: int, w: World, x: int)
    requires WorldOk(d, lo, head, w) && lo <= x < |d|
    ensures x in w.owner && Occupies(d, w, w.owner[x], x)
    ensures forall o :: Occupies(d, w, o, x) ==> o == w.owner[x]
  {
    if w.owner[x].Slot? {
      var c := w.owner[x].block;
      assert w.chain[w.owner[c].pos] == c;
    }
    forall o | Occupies(d, w, o, x) ensures o == w.owner[x] {
      match o
      case Chain(p) =>
      case Slot(c, s) =>
        var p :| 0 <= p < |w.chain| && w.chain[p] == c;
        assert w.owner[c] == Chain(p);
      case Held =>
      case At(i, r, j, k) =>
        assert w.files[i][r][j][k] == x;
    }
  }

  /** Freeing into an empty list makes the freed block list or follow itself,
      whatever it held before. */
  lemma FreeOnEmptyBreaks(d: seq<Block>, x: int, chain: seq<int>, owner: map<int, Owner>)
    requires 0 < x < |d|
    ensures
      var f := Free(d, 0, x);
      && f.ok && f.head == x && !FreeListOk(f.d, f.head, chain, owner)
      && (f.d[x][0] == x || exists s :: 1 <= s < K && f.d[x][s] == x)
  {
    var f, s := Free(d, 0, x), Scan(d[x], false, 1);
    assert if s < K then f.d[x][s] == x else f.d[x][0] == x;
  }

  /** Freeing a held block keeps a well-formed list exactly when the list is not empty. */
  lemma FreeKeepsListIff(d: seq<Block>, lo: int, head: int, w: World, x: int)
    requires WorldOk(d, lo, head, w) && x in w.owner && w.owner[x] == Held
    ensures
      var f := Free(d, head, x);
      (exists chain, owner :: FreeListOk(f.d, f.head, chain, owner)) <==> head != 0
  {
    var f := Free(d, head, x);
    if head != 0 {
      FreeOk(d, lo, head, w, x);
      var w' := FreedWorld(d, w, x);
      assert FreeListOk(f.d, f.head, w'.chain, w'.owner);
    } else {
      forall chain, owner ensures !FreeListOk(f.d, f.head, chain, owner) {
        FreeOnEmptyBreaks(d, x, chain, owner);
      }
    }
  }

  /** The block numbers that `n` successive allocations return. */
  function Drain(d: seq<Block>, head: int, n: nat): (s: seq<int>)
    ensures |s| == n
    decreases n
  {
    if n == 0 then [] else
      var a := Allocate(d, head);
      [a.result] + Drain(a.d, a.head, n - 1)
  }

  /** One allocation takes one block out of the free ones. */
  lemma DrainStep(d: seq<Block>, lo: int, head: int, w: World)
    requires WorldOk(d, lo, head, w) && head != 0
    ensures
      var a := Allocate(d, head);
      && w.chain != [] && 0 <= w.chain[|w.chain| - 1] < |d|
      && WorldOk(a.d, lo, a.head, AllocatedWorld(d, w))
      && a.result in w.owner && w.owner[a.result].Free()
      && AllocatedWorld(d, w).owner == w.owner[a.result := Held]
      && NumFree(AllocatedWorld(d, w).owner) == NumFree(w.owner) - 1
  {
    hide WorldOk, Allocate, AllocatedWorld, NumFree;
    AllocateOk(d, lo, head, w);
    NumFreeStep(w.owner, Allocate(d, head).result, Held);
  }

  /** As many allocations as there are free blocks return all of them, each once. */
  lemma {:induction false} DrainAll(d: seq<Block>, lo: int, head: int, w: World, n: nat)
    requires WorldOk(d, lo, head, w) && n <= NumFree(w.owner)
    ensures Distinct(Drain(d, head, n))
    ensures forall i :: 0 <= i < n ==> Drain(d, head, n)[i] in w.owner && w.owner[Drain(d, head, n)[i]].Free()
    decreases n
  {
    hide WorldOk, Allocate, AllocatedWorld, NumFree;
    if n > 0 {
      Heads(d, lo, head, w);
      DrainStep(d, lo, head, w);
      var a, w' := Allocate(d, head), AllocatedWorld(d, w);
      DrainAll(a.d, lo, a.head, w', n - 1);
      var t := Drain(a.d, a.head, n - 1);
      forall i | 0 <= i < n - 1 ensures t[i] != a.result && t[i] in w.owner && w.owner[t[i]].Free() {
        assert w'.owner[t[i]].Free() && w'.owner[a.result] == Held;
      }
    }
  }

  lemma Heads(d: seq<Block>, lo: int, head: int, w: World)
    requires WorldOk(d, lo, head, w)
    ensures head == 0 <==> NumFree(w.owner) == 0
  {
    EmptyIff(d, head, w.chain, w.owner);
  }

  /** The allocation after that is the first to fail. */
  lemma {:induction false} DrainFails(d: seq<Block>, lo: int, head: int, w: World)
    requires WorldOk(d, lo, head, w)
    ensures Drain(d, head, NumFree(w.owner) + 1)[NumFree(w.owner)] == -1
    decreases NumFree(w.owner)
  {
    hide WorldOk, Allocate, AllocatedWorld, NumFree;
    Heads(d, lo, head, w);
    EmptyAllocate(d);
    if head != 0 {
      DrainStep(d, lo, head, w);
      DrainFails(Allocate(d, head).d, lo, Allocate(d, head).head, AllocatedWorld(d, w));
    }
  }

  /** A client of the allocator: the disk, the list head and what the client holds. */
  datatype Client = Client(d: seq<Block>, head: int, held: set<nat>)

  datatype Op = Take | Give(x: int)

  /** One call.  A client gives back only what it holds, and not into an empty list. */
  function Call(c: Client, op: Op): Client {
    match op
    case Take =>
      var a := Allocate(c.d, c.head);
      Client(a.d, a.head, if a.result < 0 then c.held else c.held + {a.result as nat})
    case Give(x) =>
      if x >= 0 && x in c.held && c.head != 0 then
        var f := Free(c.d, c.head, x);
        Client(f.d, f.head, c.held - {x as nat})
      else c
  }

  function Calls(c: Client, ops: seq<Op>): Client
    decreases |ops|
  {
    if ops == [] then c else Calls(Call(c, ops[0]), ops[1..])
  }

  ghost predicate ClientOk(c: Client, lo: int, w: World) {
    && WorldOk(c.d, lo, c.head, w)
    && (forall x: nat :: x in c.held <==> x in w.owner && w.owner[x] == Held)
  }

  lemma TakeOk(c: Client, lo: int, w: World) returns (w': World)
    requires ClientOk(c, lo, w) && c.head != 0
    ensures ClientOk(Call(c, Take), lo, w') && w'.files == w.files
    ensures
      var x := Allocate(c.d, c.head).result;
      && x >= 0 && x !in c.held && x in FreeSet(w.owner) && Call(c, Take).held == c.held + {x as nat}
      && FreeSet(w'.owner) == FreeSet(w.owner) - {x as nat} && Call(c, Take).d[x] == ZeroBlock()
  {
    hide WorldOk, FreeListOk;
    AllocateOk(c.d, lo, c.head, w);
    w' := AllocatedWorld(c.d, w);
    NumFreeStep(w.owner, Allocate(c.d, c.head).result, Held);
  }

  lemma GiveOk(c: Client, lo: int, w: World, x: nat) returns (w': World)
    requires ClientOk(c, lo, w) && c.head != 0 && x in c.held
    ensures ClientOk(Call(c, Give(x)), lo, w') && w'.files == w.files
    ensures x !in FreeSet(w.owner) && Call(c, Give(x)).held == c.held - {x}
    ensures FreeSet(w'.owner) == FreeSet(w.owner) + {x}
  {
    hide WorldOk, FreeListOk;
    FreeOk(c.d, lo, c.head, w, x);
    w' := FreedWorld(c.d, w, x);
    NumFreeMore(w.owner, x, w'.owner[x]);
  }

  /** One call hands out a zeroed free block that is not held, or takes one back;
      nothing is lost and nothing is handed out twice. */
  lemma CallOk(c: Client, lo: int, w: World, op: Op) returns (w': World)
    requires ClientOk(c, lo, w)
    ensures ClientOk(Call(c, op), lo, w') && w'.files == w.files
    ensures FreeSet(w'.owner) + Call(c, op).held == FreeSet(w.owner) + c.held
    ensures NumFree(w'.owner) + |Call(c, op).held| == NumFree(w.owner) + |c.held|
    ensures op.Take? ==>
      var x := Allocate(c.d, c.head).result;
      if NumFree(w.owner) == 0 then x == -1 else x >= 0 && x !in c.held && Call(c, op).d[x] == ZeroBlock()
  {
    hide WorldOk, FreeListOk, FreeSet, Allocate, Free, ClientOk;
    w' := w;
    ClientHead(c, lo, w);
    EmptyAllocate(c.d);
    if op.Take? && c.head != 0 {
      w' := TakeOk(c, lo, w);
      MoveOne(FreeSet(w.owner), c.held, Allocate(c.d, c.head).result);
    } else if op.Give? && op.x >= 0 && op.x in c.held && c.head != 0 {
      w' := GiveOk(c, lo, w, op.x);
      MoveOne(c.held, FreeSet(w.owner), op.x);
    }
  }

  lemma MoveOne(a: set<nat>, b: set<nat>, x: nat)
    requires x in a && x !in b
    ensures (a - {x}) + (b + {x}) == a + b && (b + {x}) + (a - {x}) == b + a
    ensures |a - {x}| + |b + {x}| == |a| + |b|
  {
  }

  lemma ClientHead(c: Client, lo: int, w: World)
    requires ClientOk(c, lo, w)
    ensures c.head == 0 <==> NumFree(w.owner) == 0
  {
    Heads(c.d, lo, c.head, w);
  }

  lemma EmptyAllocate(d: seq<Block>)
    ensures Allocate(d, 0) == Allocation(d, 0, -1)
  {
  }

  /** The call is served: a take adds one zeroed block that was not held, if the list has any;
      a block that is held is given back, if the list is not empty; what is held is not touched. */
  ghost predicate Served(c: Client, op: Op, c': Client) {
    && |c'.d| == |c.d|
    && (forall y: nat :: y in c.held && y in c'.held && y < |c.d| ==> c'.d[y] == c.d[y])
    && match op
       case Take =>
         if c.head == 0 then c' == c
         else exists x: nat :: x !in c.held && x < |c'.d| && c'.d[x] == ZeroBlock() && c'.held == c.held + {x}
       case Give(x) =>
         if c.head != 0 && x >= 0 && x in c.held then c'.held == c.held - {x as nat} else c' == c
  }

  /** How the number of held blocks changes with a call. */
  function Gain(c: Client, op: Op): int {
    match op
    case Take => if c.head == 0 then 0 else 1
    case Give(x) => if c.head != 0 && x >= 0 && x in c.held then -1 else 0
  }

  function Gains(run: seq<Client>, ops: seq<Op>): int
    requires |run| == |ops| + 1
  {
    if ops == [] then 0 else Gain(run[0], ops[0]) + Gains(run[1..], ops[1..])
  }

  lemma TakeServed(c: Client, lo: int, w: World)
    requires ClientOk(c, lo, w) && c.head != 0
    ensures Served(c, Take, Call(c, Take)) && |Call(c, Take).held| == |c.held| + 1
  {
    hide FreeListOk, PositionsOk, Allocate;
    AllocateOk(c.d, lo, c.head, w);
    var x := Allocate(c.d, c.head).result;
    assert x in w.owner && w.owner[x].Free();
  }

  lemma GiveServed(c: Client, lo: int, w: World, x: nat)
    requires ClientOk(c, lo, w) && c.head != 0 && x in c.held
    ensures Served(c, Give(x), Call(c, Give(x))) && |Call(c, Give(x)).held| == |c.held| - 1
  {
    hide FreeListOk, PositionsOk, Free;
    FreeOk(c.d, lo, c.head, w, x);
  }

  lemma CallServed(c: Client, lo: int, w: World, op: Op)
    requires ClientOk(c, lo, w)
    ensures Served(c, op, Call(c, op)) && |Call(c, op).held| == |c.held| + Gain(c, op)
  {
    hide ClientOk, Allocate, Free;
    EmptyAllocate(c.d);
    if op.Take? && c.head != 0 {
      TakeServed(c, lo, w);
    } else if op.Give? && op.x >= 0 && op.x in c.held && c.head != 0 {
      GiveServed(c, lo, w, op.x);
    }
  }

  /** Over every run each call is served in turn, from the client that the calls before left;
      the free blocks and the held blocks together stay the same set. */
  lemma {:induction false} CallsOk(c: Client, lo: int, w: World, ops: seq<Op>) returns (w': World, run: seq<Client>)
    requires ClientOk(c, lo, w)
    ensures ClientOk(Calls(c, ops), lo, w') && w'.files == w.files
    ensures FreeSet(w'.owner) + Calls(c, ops).held == FreeSet(w.owner) + c.held
    ensures NumFree(w'.owner) + |Calls(c, ops).held| == NumFree(w.owner) + |c.held|
    ensures |run| == |ops| + 1 && run[0] == c && run[|ops|] == Calls(c, ops)
    ensures forall i :: 0 <= i < |ops| ==> Served(run[i], ops[i], run[i + 1])
    ensures |Calls(c, ops).held| == |c.held| + Gains(run, ops)
    decreases |ops|
  {
    hide Served, Gain, ClientOk, FreeSet, Call, NumFree;
    if ops == [] {
      w', run := w, [c];
    } else {
      var w1 := CallOk(c, lo, w, ops[0]);
      CallServed(c, lo, w, ops[0]);
      var rest;
      w', rest := CallsOk(Call(c, ops[0]), lo, w1, ops[1..]);
      run := [c] + rest;
      assert run[1..] == rest;
      forall i | 0 <= i < |ops| ensures Served(run[i], ops[i], run[i + 1]) {
        assert i > 0 ==> run[i] == rest[i - 1] && run[i + 1] == rest[i] && ops[i] == ops[1..][i - 1];
      }
    }
  }

  /** A run of takes, as long as there are free blocks, leaves the client with what it held
      and with the different blocks that the allocations return. */
  lemma {:induction false} TakesOk(c: Client, lo: int, w: World, n: nat)
    requires ClientOk(c, lo, w) && n <= NumFree(w.owner)
    ensures Calls(c, seq(n, _ => Take)).held == c.held + set x: nat | x in Drain(c.d, c.head, n)
    decreases n
  {
    hide ClientOk, NumFree, FreeSet, Allocate, Free;
    if n > 0 {
      ClientHead(c, lo, w);
      var w1 := CallOk(c, lo, w, Take);
      var a := TakeOk(c, lo, w);
      var rest := seq(n - 1, _ => Take);
      assert seq(n, _ => Take)[1..] == rest;
      NumFreeLess(c, lo, w, w1);
      TakesOk(Call(c, Take), lo, w1, n - 1);
      TakeAdds(c.held, Allocate(c.d, c.head).result, Drain(Call(c, Take).d, Call(c, Take).head, n - 1));
    }
  }

  lemma TakeAdds(held: set<nat>, x: nat, s: seq<int>)
    ensures (held + {x}) + (set y: nat | y in s) == held + (set y: nat | y in [x] + s)
  {
  }

  lemma NumFreeLess(c: Client, lo: int, w: World, w': World)
    requires ClientOk(c, lo, w) && c.head != 0
    requires NumFree(w'.owner) + |Call(c, Take).held| == NumFree(w.owner) + |c.held|
    ensures NumFree(w'.owner) == NumFree(w.owner) - 1
  {
    hide NumFree, FreeListOk, PositionsOk, Allocate;
    CallServed(c, lo, w, Take);
  }
}
