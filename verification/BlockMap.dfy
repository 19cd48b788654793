/** The block map of an inode: 12 direct blocks, then trees of height 1, 2, 3.

    `FileMap` lists the blocks of every level in order, so the index block `i`
    of a level holds children `i * K .. (i + 1) * K` of the level below. */
module BlockMap {
  import opened Blocks
  import opened Ownership

  const DIRECT: int := 12
  const MAX_BLOCKS: int := DIRECT + K + K * K + K * K * K

  /** The largest file: 12 direct blocks and three regions of 512, 512^2 and 512^3 blocks. */
  lemma LargestFile()
    ensures MAX_BLOCKS == 12 + 512 + 262_144 + 134_217_728 && MAX_BLOCKS * BLOCK_SIZE == 550_831_702_016
  {
  }

  /** How many data blocks region `r` can map. */
  function Cap(r: int): int
    requires 0 <= r < 4
  {
    if r == 0 then DIRECT else if r == 1 then K else if r == 2 then K * K else K * K * K
  }

  /** The first logical block of region `r`. */
  function Start(r: int): int
    requires 0 <= r <= 4
  {
    if r == 0 then 0
    else if r == 1 then DIRECT
    else if r == 2 then DIRECT + K
    else if r == 3 then DIRECT + K + K * K
    else MAX_BLOCKS
  }

  function Region(l: int): (r: int)
    requires 0 <= l < MAX_BLOCKS
    ensures 0 <= r < 4 && Start(r) <= l < Start(r + 1)
  {
    if l < Start(1) then 0 else if l < Start(2) then 1 else if l < Start(3) then 2 else 3
  }

  /** How many of the first `n` logical blocks lie in region `r`. */
  function DataIn(r: int, n: int): (c: int)
    requires 0 <= r < 4
    ensures 0 <= c <= Cap(r)
  {
    if n <= Start(r) then 0 else if n - Start(r) < Cap(r) then n - Start(r) else Cap(r)
  }

  function Ceil(c: int): int {
    (c + K - 1) / K
  }

  /** The size of level `j` above `c` data blocks. */
  function Up(c: int, j: int): (u: int)
    requires 0 <= c && 0 <= j
    ensures 0 <= u && (u == 0 <==> c == 0)
    decreases j
  {
    if j == 0 then c else Ceil(Up(c, j - 1))
  }

  /** The size of level `j` of region `r` in a map of `n` blocks. */
  function Need(r: int, j: int, n: int): (u: int)
    requires 0 <= r < 4 && 0 <= j
    ensures 0 <= u
  {
    if j > r then 0 else Up(DataIn(r, n), j)
  }

  ghost predicate Shaped(f: FileMap, n: int) {
    forall r, j :: 0 <= r < 4 && 0 <= j < 4 ==> |f[r][j]| == Need(r, j, n)
  }

  /** The `i`-th block number of a list, 0 beyond its end. */
  function Entry(s: seq<int>, i: int): int
    requires 0 <= i
  {
    if i < |s| then s[i] else 0
  }

  /** The index blocks `ps` hold the children `cs` in order, then zeros. */
  ghost predicate Links(d: seq<Block>, ps: seq<int>, cs: seq<int>) {
    && |cs| <= K * |ps|
    && (forall i :: 0 <= i < |ps| ==> 0 <= ps[i] < |d|)
    && (forall i, s :: 0 <= i < |ps| && 0 <= s < K ==> d[ps[i]][s] == Entry(cs, i * K + s))
  }

  ghost predicate TreesOk(d: seq<Block>, f: FileMap) {
    forall r, j :: 0 <= j < r < 4 ==> Links(d, f[r][j + 1], f[r][j])
  }

  ghost predicate PointersOk(rec: InodeRec, f: FileMap) {
    && |rec.direct| == DIRECT && (forall k :: 0 <= k < DIRECT ==> rec.direct[k] == Entry(f[0][0], k))
    && rec.single == Entry(f[1][1], 0)
    && rec.double == Entry(f[2][2], 0)
    && rec.triple == Entry(f[3][3], 0)
  }

  /** Inode `rec` and the index blocks on the disk represent the map `f`. */
  ghost predicate FileOk(d: seq<Block>, rec: InodeRec, f: FileMap) {
    && 0 <= rec.blocks <= MAX_BLOCKS
    && Shaped(f, rec.blocks)
    && PointersOk(rec, f)
    && TreesOk(d, f)
  }

  /** The pointers of the inode name the trees of `f`; each hangs on one root and has no
      levels above it. */
  ghost predicate Rooted(rec: InodeRec, f: FileMap) {
    && PointersOk(rec, f) && |f[0][0]| <= DIRECT && (forall r :: 1 <= r < 4 ==> |f[r][r]| <= 1)
    && (forall r, j :: 0 <= r < j < 4 ==> f[r][j] == [])
  }

  /** The disk block of logical block `l`. */
  function DataAt(f: FileMap, l: int): int
    requires 0 <= l < MAX_BLOCKS
  {
    Entry(f[Region(l)][0], l - Start(Region(l)))
  }

  ghost function Push(f: FileMap, r: int, j: int, x: int): FileMap
    requires 0 <= r < 4 && 0 <= j < 4
  {
    f[r := f[r][j := f[r][j] + [x]]]
  }

  ghost function Attach(w: World, ino: int, r: int, j: int, x: int): World
    requires 0 <= ino < |w.files| && 0 <= r < 4 && 0 <= j < 4
  {
    w.(owner := w.owner[x := At(ino, r, j, |w.files[ino][r][j]|)],
       files := w.files[ino := Push(w.files[ino], r, j, x)])
  }

  ghost predicate Distinct(s: seq<int>) {
    forall i, j :: 0 <= i < j < |s| ==> s[i] != s[j]
  }

  lemma AddChild(d: seq<Block>, ps: seq<int>, cs: seq<int>, x: int, d': seq<Block>)
    requires Links(d, ps, cs) && Distinct(ps) && |cs| < K * |ps|
    requires
      var p := ps[|cs| / K];
      0 <= p < |d| && d' == d[p := d[p][|cs| % K := x]]
    ensures Links(d', ps, cs + [x])
  {
    var n := |cs|;
    forall i, s | 0 <= i < |ps| && 0 <= s < K ensures d'[ps[i]][s] == Entry(cs + [x], i * K + s) {
      assert d[ps[i]][s] == Entry(cs, i * K + s);
      if i == n / K {
      } else {
        assert ps[i] != ps[n / K];
      }
    }
  }

  lemma AddParent(d: seq<Block>, ps: seq<int>, cs: seq<int>, x: int)
    requires Links(d, ps, cs) && 0 <= x < |d| && d[x] == ZeroBlock()
    ensures Links(d, ps + [x], cs)
  {
    var n := |ps|;
    forall i, s | 0 <= i < n + 1 && 0 <= s < K ensures d[(ps + [x])[i]][s] == Entry(cs, i * K + s) {
      if i < n {
        assert d[ps[i]][s] == Entry(cs, i * K + s);
      }
    }
  }

  lemma LinksFrame(d: seq<Block>, d': seq<Block>, ps: seq<int>, cs: seq<int>)
    requires Links(d, ps, cs) && |d'| == |d|
    requires forall i :: 0 <= i < |ps| ==> d'[ps[i]] == d[ps[i]]
    ensures Links(d', ps, cs)
  {
    forall i, s | 0 <= i < |ps| && 0 <= s < K ensures d'[ps[i]][s] == Entry(cs, i * K + s) {
      assert d[ps[i]][s] == Entry(cs, i * K + s);
    }
  }

  /** A child is listed at slot `k % K` of index block `k / K`. */
  lemma ChildAt(d: seq<Block>, ps: seq<int>, cs: seq<int>, k: int)
    requires Links(d, ps, cs) && 0 <= k < K * |ps|
    ensures 0 <= k / K < |ps| && d[ps[k / K]][k % K] == Entry(cs, k)
  {
    assert k == (k / K) * K + k % K;
  }

  /** The index of the ancestor, `j` levels up, of child `c`. */
  function Down(c: int, j: int): (u: int)
    requires 0 <= c && 0 <= j
    ensures 0 <= u
    decreases j
  {
    if j == 0 then c else Down(c, j - 1) / K
  }

  /** Whether child `c` is the first under a new index block `j` levels up. */
  predicate Aligned(c: int, j: int)
    requires 0 <= c && 0 <= j
    decreases j
  {
    j == 0 || (Aligned(c, j - 1) && Down(c, j - 1) % K == 0)
  }

  /** One more child adds an index block at level `j` exactly when it is aligned. */
  lemma {:induction false} UpStep(c: int, j: int)
    requires 0 <= c && 0 <= j
    ensures Up(c + 1, j) == Down(c, j) + 1
    ensures Up(c, j) == Down(c, j) + (if Aligned(c, j) then 0 else 1)
    decreases j
  {
    if j > 0 {
      UpStep(c, j - 1);
    }
  }

  /** Dividing step by step, and what that says about the remainders. */
  lemma DivideTwice(c: int)
    requires 0 <= c
    ensures c / K / K == c / (K * K) && c / K / K / K == c / (K * K * K)
    ensures c % (K * K) == 0 <==> c % K == 0 && c / K % K == 0
    ensures c % (K * K * K) == 0 <==> c % K == 0 && c / K % K == 0 && c / K / K % K == 0
  {
  }

  lemma DownSteps(c: int)
    requires 0 <= c
    ensures Down(c, 1) == c / K && Down(c, 2) == c / K / K && Down(c, 3) == c / K / K / K
    ensures Aligned(c, 1) <==> c % K == 0
    ensures Aligned(c, 2) <==> c % K == 0 && c / K % K == 0
    ensures Aligned(c, 3) <==> c % K == 0 && c / K % K == 0 && c / K / K % K == 0
  {
    assert Down(c, 0) == c && Aligned(c, 0);
  }

  lemma AlignedValues(c: int)
    requires 0 <= c
    ensures Aligned(c, 1) <==> c % K == 0
    ensures Aligned(c, 2) <==> c % (K * K) == 0
    ensures Aligned(c, 3) <==> c % (K * K * K) == 0
    ensures Down(c, 1) == c / K && Down(c, 2) == c / (K * K) && Down(c, 3) == c / (K * K * K)
  {
    hide Down, Aligned;
    DivideTwice(c);
    DownSteps(c);
  }

  lemma DataStep(n: int, r: int)
    requires 0 <= n < MAX_BLOCKS && 0 <= r < 4
    ensures r != Region(n) ==> DataIn(r, n + 1) == DataIn(r, n)
    ensures r == Region(n) ==> DataIn(r, n) == n - Start(r) && DataIn(r, n + 1) == n - Start(r) + 1
  {
  }

  /** Which levels a map of `n` blocks grows at when one block is appended. */
  lemma NeedStep(n: int, r: int, j: int)
    requires 0 <= n < MAX_BLOCKS && 0 <= r < 4 && 0 <= j
    ensures r != Region(n) || j > r ==> Need(r, j, n + 1) == Need(r, j, n)
    ensures r == Region(n) && j <= r ==>
      && Need(r, j, n + 1) == Down(n - Start(r), j) + 1
      && Need(r, j, n) == Down(n - Start(r), j) + (if Aligned(n - Start(r), j) then 0 else 1)
  {
    hide Region, DataIn, Start, Up, Down, Aligned;
    DataStep(n, r);
    if r == Region(n) {
      UpStep(n - Start(r), j);
    }
  }

  /** The number of index blocks of a map of `n` blocks. */
  function IndexBlocks(n: int): int {
    Need(1, 1, n) + Need(2, 1, n) + Need(2, 2, n) + Need(3, 1, n) + Need(3, 2, n) + Need(3, 3, n)
  }

  lemma UpValues(c: int)
    requires 0 <= c
    ensures Up(c, 1) == (c + K - 1) / K
    ensures Up(c, 2) == (c + K * K - 1) / (K * K)
    ensures Up(c, 3) == (c + K * K * K - 1) / (K * K * K)
  {
    assert Up(c, 0) == c;
    assert Up(c, 1) == (c + K - 1) / K;
    assert Up(c, 2) == (Up(c, 1) + K - 1) / K;
    assert Up(c, 3) == (Up(c, 2) + K - 1) / K;
  }

  /** The index overhead in closed form. */
  lemma IndexBlocksClosed(n: int)
    requires 0 <= n <= MAX_BLOCKS
    ensures n <= 12 ==> IndexBlocks(n) == 0
    ensures 12 < n <= 524 ==> IndexBlocks(n) == 1
    ensures 524 < n <= 524 + K * K ==> IndexBlocks(n) == 2 + (n - 524 + K - 1) / K
    ensures 524 + K * K < n ==>
      var m := n - 524 - K * K;
      IndexBlocks(n) == 515 + (m + K * K - 1) / (K * K) + (m + K - 1) / K
  {
    SmallUp(DataIn(1, n));
    SmallUp(DataIn(2, n));
    SmallUp(DataIn(3, n));
  }

  lemma SmallUp(c: int)
    requires 0 <= c <= K * K * K
    ensures Up(c, 1) == (c + K - 1) / K
    ensures Up(c, 2) == (c + K * K - 1) / (K * K)
    ensures c <= K ==> Up(c, 1) == if c == 0 then 0 else 1
    ensures c <= K * K ==> Up(c, 2) == if c == 0 then 0 else 1
    ensures Up(c, 3) == if c == 0 then 0 else 1
  {
    UpValues(c);
  }

  lemma {:induction false} UpMonotone(c: int, c': int, j: int)
    requires 0 <= c <= c' && 0 <= j
    ensures Up(c, j) <= Up(c', j)
    decreases j
  {
    if j > 0 {
      UpMonotone(c, c', j - 1);
    }
  }

  lemma NeedMonotone(r: int, j: int, n: int, n': int)
    requires 0 <= r < 4 && 0 <= j && n <= n'
    ensures Need(r, j, n) <= Need(r, j, n')
  {
    if j <= r {
      UpMonotone(DataIn(r, n), DataIn(r, n'), j);
    }
  }

  /** The map of a file as a list: its disk blocks in file order. */
  function Mapping(f: FileMap, n: int): (s: seq<int>)
    requires 0 <= n <= MAX_BLOCKS
    ensures |s| == n
  {
    seq(n, l requires 0 <= l < n => DataAt(f, l))
  }
}
