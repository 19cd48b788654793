/** Directory records: packed into a block one after the other, then zeros. */
module Records {
  import opened Blocks
  import opened Content

  const MAX_FILE_NAME_LENGTH: int := 255
  const RECORD_LENGTH: int := 2
  const RECORD_INUM: int := 8
  const RECORD_FIXED_LEN: int := RECORD_LENGTH + RECORD_INUM
  const LAST_POSSIBLE_RECORD: int := BLOCK_SIZE - RECORD_FIXED_LEN

  datatype Record = Record(inum: int, name: seq<byte>)

  datatype Option<T> = None | Some(value: T)

  /** The bytes of a C string, without the terminating zero. */
  predicate CString(name: seq<byte>) {
    forall i :: 0 <= i < |name| ==> name[i] != 0
  }

  predicate RecordOk(r: Record) {
    CString(r.name) && |r.name| <= MAX_FILE_NAME_LENGTH && -TWO63 <= r.inum < TWO63
  }

  /** The length of a record: the fixed part, the name and its terminating zero. */
  function Size(r: Record): int {
    RECORD_FIXED_LEN + |r.name| + 1
  }

  function Encode(r: Record): (s: seq<byte>)
    ensures |s| == Size(r)
  {
    LittleEndian(Size(r), RECORD_LENGTH) + BytesOfWord(r.inum) + r.name + [0]
  }

  /** A record on the disk: two bytes of length, eight of inode number, the name, and a zero. */
  lemma RecordLayout(r: Record)
    requires RecordOk(r)
    ensures
      var s, n := Encode(r), |r.name|;
      && |s| == 11 + n && (s[0] as int) + 256 * (s[1] as int) == 11 + n
      && Value(s[2..10]) == r.inum % 0x1_0000_0000_0000_0000
      && s[10..10 + n] == r.name && s[10 + n] == 0
  {
    hide FromLittleEndian, Value, BytesOfWord;
    var s, n := Encode(r), |r.name|;
    assert LittleEndian(11 + n, 2) == [(11 + n) % 256, (11 + n) / 256 % 256];
    assert s[2..10] == BytesOfWord(r.inum);
    WordValue(r.inum);
  }

  function Pack(rs: seq<Record>): seq<byte> {
    if rs == [] then [] else Encode(rs[0]) + Pack(rs[1..])
  }

  /** The block `b` holds the records `rs`. */
  ghost predicate Packed(b: seq<byte>, rs: seq<Record>) {
    && |b| == BLOCK_SIZE && |Pack(rs)| <= BLOCK_SIZE
    && (forall i :: 0 <= i < |rs| ==> RecordOk(rs[i]))
    && b == Pack(rs) + Zeros(BLOCK_SIZE - |Pack(rs)|)
  }

  function ReadLength(b: seq<byte>, p: int): int
    requires 0 <= p <= |b| - RECORD_LENGTH
  {
    FromLittleEndian(b[p..p + RECORD_LENGTH])
  }

  function ReadInum(b: seq<byte>, p: int): int
    requires 0 <= p <= |b| - RECORD_FIXED_LEN
  {
    WordOfBytes(b[p + RECORD_LENGTH..p + RECORD_FIXED_LEN])
  }

  lemma {:induction false} PackConcat(a: seq<Record>, b: seq<Record>)
    ensures Pack(a + b) == Pack(a) + Pack(b)
  {
    hide Encode, Pack;
    PackStep(a);
    if a == [] {
      assert a + b == b && [] + Pack(b) == Pack(b);
    } else {
      PackConcat(a[1..], b);
      PackStep(a + b);
      assert (a + b)[1..] == a[1..] + b;
      Regroup(Encode(a[0]), Pack(a[1..]), Pack(b));
    }
  }

  lemma PackStep(rs: seq<Record>)
    ensures Pack(rs) == if rs == [] then [] else Encode(rs[0]) + Pack(rs[1..])
  {
  }

  lemma PackOne(r: Record)
    ensures Pack([r]) == Encode(r)
  {
    hide Encode;
    assert [r][1..] == [] && Pack([r][1..]) == [];
    assert Pack([r]) == Encode(r) + Pack([r][1..]);
  }

  lemma SplitAt<T>(s: seq<T>, i: int)
    requires 0 <= i < |s|
    ensures s == s[..i] + ([s[i]] + s[i + 1..]) && s[..i + 1] == s[..i] + [s[i]]
  {
  }

  /** Where record `i` lies among the others. */
  lemma PackAt(rs: seq<Record>, i: int)
    requires 0 <= i < |rs|
    ensures Pack(rs) == Pack(rs[..i]) + Encode(rs[i]) + Pack(rs[i + 1..])
    ensures Pack(rs[..i + 1]) == Pack(rs[..i]) + Encode(rs[i])
  {
    hide Pack, Encode;
    SplitAt(rs, i);
    PackOne(rs[i]);
    PackConcat(rs[..i], [rs[i]] + rs[i + 1..]);
    PackConcat([rs[i]], rs[i + 1..]);
    PackConcat(rs[..i], [rs[i]]);
    Regroup(Pack(rs[..i]), Encode(rs[i]), Pack(rs[i + 1..]));
  }

  lemma Regroup<T>(a: seq<T>, b: seq<T>, c: seq<T>)
    ensures a + (b + c) == a + b + c
  {
  }

  /** The parts of a concatenation. */
  lemma Parts<T>(a: seq<T>, e: seq<T>, c: seq<T>, z: seq<T>)
    ensures
      var s := a + e + c + z;
      s[..|a|] == a && s[|a|..|a| + |e|] == e && s[|a| + |e|..] == c + z
  {
  }

  lemma SubSlice<T>(s: seq<T>, p: int, n: int, i: int, j: int)
    requires 0 <= p && 0 <= n && p + n <= |s| && 0 <= i <= j <= n
    ensures s[p..p + n][i..j] == s[p + i..p + j]
  {
    var t := s[p..p + n];
    var x, y := t[i..j], s[p + i..p + j];
    forall k | 0 <= k < j - i ensures x[k] == y[k] {
      assert x[k] == t[i + k] && y[k] == s[p + (i + k)];
    }
  }

  /** What the program reads back from the bytes of a record. */
  lemma DecodeEncode(r: Record)
    requires RecordOk(r)
    ensures
      var e := Encode(r);
      && FromLittleEndian(e[..2]) == Size(r) && WordOfBytes(e[2..10]) == r.inum && e[10..10 + |r.name|] == r.name
  {
    var e := Encode(r);
    Pow256Values();
    FromLittleEndianInverse(Size(r), 2);
    BytesWordInverse(r.inum);
    assert e[..2] == LittleEndian(Size(r), 2) && e[2..10] == BytesOfWord(r.inum) && e[10..10 + |r.name|] == r.name;
  }

  /** Record `i` of a block, as the program reads it at its position. */
  lemma ReadRecord(b: seq<byte>, rs: seq<Record>, i: int)
    requires Packed(b, rs) && 0 <= i < |rs|
    ensures
      var p, r := |Pack(rs[..i])|, rs[i];
      && p + Size(r) <= BLOCK_SIZE && p <= LAST_POSSIBLE_RECORD && |Pack(rs[..i + 1])| == p + Size(r)
      && ReadLength(b, p) == Size(r) && ReadInum(b, p) == r.inum
      && b[p + RECORD_FIXED_LEN..p + RECORD_FIXED_LEN + |r.name|] == r.name
  {
    hide Pack, Encode, FromLittleEndian, WordOfBytes;
    var p, r := |Pack(rs[..i])|, rs[i];
    PackAt(rs, i);
    DecodeEncode(r);
    Parts(Pack(rs[..i]), Encode(r), Pack(rs[i + 1..]), Zeros(BLOCK_SIZE - |Pack(rs)|));
    SubSlice(b, p, Size(r), 0, 2);
    SubSlice(b, p, Size(r), 2, 10);
    SubSlice(b, p, Size(r), 10, 10 + |r.name|);
  }

  /** Behind the last record the program reads the length 0. */
  lemma ReadEnd(b: seq<byte>, rs: seq<Record>)
    requires Packed(b, rs) && |Pack(rs)| <= LAST_POSSIBLE_RECORD
    ensures ReadLength(b, |Pack(rs)|) == 0
  {
    var p := |Pack(rs)|;
    assert b[p..p + 2] == [0, 0];
    assert FromLittleEndian([0, 0]) == 0 by {
      assert [0, 0][1..] == [0];
      assert FromLittleEndian([0]) == 0;
    }
  }

  lemma EmptyPack(b: seq<byte>, rs: seq<Record>)
    requires Packed(b, rs)
    ensures |b| == BLOCK_SIZE && Pack(rs[..0]) == [] && |Pack(rs)| <= BLOCK_SIZE
  {
    hide Encode;
    assert rs[..0] == [];
  }

  /** The first record with the name, or the number of records. */
  function Find(rs: seq<Record>, name: seq<byte>): (i: int)
    ensures 0 <= i <= |rs| && (i < |rs| ==> rs[i].name == name)
    ensures forall j :: 0 <= j < i ==> rs[j].name != name
  {
    if rs == [] || rs[0].name == name then 0 else 1 + Find(rs[1..], name)
  }

  lemma FindIs(rs: seq<Record>, name: seq<byte>, i: int)
    requires 0 <= i <= |rs| && (i < |rs| ==> rs[i].name == name) && forall j :: 0 <= j < i ==> rs[j].name != name
    ensures Find(rs, name) == i
  {
  }

  /** Scans a block for a name: the offset of the first record with it, or -1. */
  method ScanForName(b: seq<byte>, name: seq<byte>, ghost rs: seq<Record>) returns (offset: int)
    requires Packed(b, rs)
    ensures offset == if Find(rs, name) < |rs| then |Pack(rs[..Find(rs, name)])| else -1
  {
    hide Pack, Packed, ReadLength, Find;
    EmptyPack(b, rs);
    var curr := 0;
    ghost var i := 0;
    while curr <= LAST_POSSIBLE_RECORD
      invariant 0 <= i <= |rs| && curr == |Pack(rs[..i])|
      invariant forall j :: 0 <= j < i ==> rs[j].name != name
      decreases BLOCK_SIZE - curr
    {
      var len := ReadLength(b, curr);
      if i < |rs| {
        ReadRecord(b, rs, i);
      } else {
        assert rs[..i] == rs;
        ReadEnd(b, rs);
      }
      if len == 0 {
        break;
      }
      var nameLen := len - RECORD_FIXED_LEN - 1;
      if nameLen == |name| && b[curr + RECORD_FIXED_LEN..curr + RECORD_FIXED_LEN + nameLen] == name {
        FindIs(rs, name, i);
        return curr;
      }
      curr := curr + len;
      i := i + 1;
    }
    if i < |rs| {
      ReadRecord(b, rs, i);
    }
    FindIs(rs, name, i);
    return -1;
  }

  /** Whether the block still has room for `size` bytes. */
  predicate Room(rs: seq<Record>, size: int) {
    |Pack(rs)| + size <= BLOCK_SIZE
  }

  /** Scans a block for room for a record with a name of `nameLen` bytes, its zero
      included: the offset behind the last record, or -1. */
  method ScanForRoom(b: seq<byte>, nameLen: int, ghost rs: seq<Record>) returns (offset: int)
    requires Packed(b, rs) && 1 <= nameLen
    ensures offset == if Room(rs, RECORD_FIXED_LEN + nameLen) then |Pack(rs)| else -1
  {
    hide Pack, Packed, ReadLength;
    EmptyPack(b, rs);
    var curr := 0;
    ghost var i := 0;
    while curr <= LAST_POSSIBLE_RECORD
      invariant 0 <= i <= |rs| && curr == |Pack(rs[..i])|
      decreases BLOCK_SIZE - curr
    {
      var len := ReadLength(b, curr);
      if i < |rs| {
        ReadRecord(b, rs, i);
      } else {
        assert rs[..i] == rs;
        ReadEnd(b, rs);
      }
      if len == 0 {
        var left := BLOCK_SIZE - curr - RECORD_FIXED_LEN;
        if left >= nameLen {
          return curr;
        } else {
          break;
        }
      }
      curr := curr + len;
      i := i + 1;
    }
    if i < |rs| {
      ReadRecord(b, rs, i);
    }
    assert rs[..|rs|] == rs;
    return -1;
  }

  /** The block with a record written at `p`, field by field. */
  function PutRecord(b: seq<byte>, p: int, r: Record): (s: seq<byte>)
    requires 0 <= p && p + Size(r) <= |b|
    ensures |s| == |b|
  {
    var s1 := Splice(b, p, LittleEndian(Size(r), RECORD_LENGTH));
    var s2 := Splice(s1, p + RECORD_LENGTH, BytesOfWord(r.inum));
    Splice(s2, p + RECORD_FIXED_LEN, r.name + [0])
  }

  /** A record written behind the last one is the new last record. */
  lemma PutRecordOk(b: seq<byte>, rs: seq<Record>, r: Record)
    requires Packed(b, rs) && RecordOk(r) && Room(rs, Size(r))
    ensures Packed(PutRecord(b, |Pack(rs)|, r), rs + [r])
  {
    hide Pack, Encode, PutRecord;
    PackConcat(rs, [r]);
    PackOne(r);
    PutEncode(b, |Pack(rs)|, r);
    SpliceZeros(Pack(rs), Encode(r), BLOCK_SIZE - |Pack(rs)|);
  }

  lemma PutEncode(b: seq<byte>, p: int, r: Record)
    requires 0 <= p && p + Size(r) <= |b|
    ensures PutRecord(b, p, r) == Splice(b, p, Encode(r))
  {
    var x, y, z := LittleEndian(Size(r), RECORD_LENGTH), BytesOfWord(r.inum), r.name + [0];
    assert Encode(r) == x + y + z;
    hide LittleEndian, BytesOfWord;
    SpliceThree(b, p, x, y, z);
  }

  lemma SpliceThree(b: seq<byte>, p: int, x: seq<byte>, y: seq<byte>, z: seq<byte>)
    requires 0 <= p && p + |x| + |y| + |z| <= |b|
    ensures Splice(Splice(Splice(b, p, x), p + |x|, y), p + |x| + |y|, z) == Splice(b, p, x + y + z)
  {
    var s := Splice(Splice(Splice(b, p, x), p + |x|, y), p + |x| + |y|, z);
    assert forall i :: 0 <= i < |b| ==> s[i] == Splice(b, p, x + y + z)[i];
  }

  lemma SpliceZeros(a: seq<byte>, e: seq<byte>, n: int)
    requires |e| <= n
    ensures Splice(a + Zeros(n), |a|, e) == (a + e) + Zeros(n - |e|)
  {
  }

  /** The block with the record at `p` taken out and the rest moved up. */
  function Compact(b: seq<byte>, p: int): (s: seq<byte>)
    requires |b| == BLOCK_SIZE && 0 <= p <= LAST_POSSIBLE_RECORD && p + ReadLength(b, p) <= BLOCK_SIZE
    ensures |s| == BLOCK_SIZE
  {
    var next := p + ReadLength(b, p);
    var buffer := Splice(Zeros(BLOCK_SIZE), 0, b[..p]);
    if next < BLOCK_SIZE then Splice(buffer, p, b[next..]) else buffer
  }

  /** Taking a record out leaves the others, in order. */
  lemma CompactOk(b: seq<byte>, rs: seq<Record>, i: int)
    requires Packed(b, rs) && 0 <= i < |rs|
    ensures
      var p := |Pack(rs[..i])|;
      && p <= LAST_POSSIBLE_RECORD && p + ReadLength(b, p) <= BLOCK_SIZE
      && Packed(Compact(b, p), rs[..i] + rs[i + 1..])
  {
    hide Pack, Encode, ReadLength, ReadInum, CString;
    ReadRecord(b, rs, i);
    PackAt(rs, i);
    PackConcat(rs[..i], rs[i + 1..]);
    CompactParts(b, Pack(rs[..i]), Encode(rs[i]), Pack(rs[i + 1..]));
  }

  lemma CompactParts(b: seq<byte>, a: seq<byte>, e: seq<byte>, c: seq<byte>)
    requires |b| == BLOCK_SIZE && |a| <= LAST_POSSIBLE_RECORD && |a + e + c| <= BLOCK_SIZE
    requires b == a + e + c + Zeros(BLOCK_SIZE - |a + e + c|)
    requires ReadLength(b, |a|) == |e|
    ensures Compact(b, |a|) == (a + c) + Zeros(BLOCK_SIZE - |a + c|)
  {
    hide ReadLength;
    Parts(a, e, c, Zeros(BLOCK_SIZE - |a + e + c|));
    var s := Compact(b, |a|);
    forall i | 0 <= i < BLOCK_SIZE ensures s[i] == ((a + c) + Zeros(BLOCK_SIZE - |a + c|))[i] {
    }
  }

  lemma EmptyPacked()
    ensures Packed(Zeros(BLOCK_SIZE), [])
  {
  }
}
