/**
 The blocks of the file system as the disk has them: words of 32 bits, little-endian. A block can be told
 from its words once one knows what kind of block it is, and not otherwise: a zero block is a data block,
 a piece of the free map and a block of free inodes.
 */
module DiskFormat {
  import LogModel
  import opened FsModel
  import opened FileSystem

  const WORDS := LogModel.WORDS

  // Data blocks

  lemma SameBytes(c: Block, d: Block, j: nat)
    requires |c| == |d| == BSIZE && j < WORDS && Word(c, j) == Word(d, j)
    ensures c[4 * j..4 * j + 4] == d[4 * j..4 * j + 4]
  {
    var a0, a1, a2, a3 := c[4 * j] as int, c[4 * j + 1] as int, c[4 * j + 2] as int, c[4 * j + 3] as int;
    var b0, b1, b2, b3 := d[4 * j] as int, d[4 * j + 1] as int, d[4 * j + 2] as int, d[4 * j + 3] as int;
    assert a0 == b0 && a1 == b1 && a2 == b2 && a3 == b3;
  }

  // The free map: bit `b` of a block is bit `b % 8` of byte `b / 8`

  function Value(q: seq<bool>): nat {
    if q == [] then 0 else (if q[0] then 1 else 0) + 2 * Value(q[1..])
  }

  function Exp(n: nat): nat {
    if n == 0 then 1 else 2 * Exp(n - 1)
  }

  lemma {:induction false} ExpSum(m: nat, n: nat)
    ensures Exp(m + n) == Exp(m) * Exp(n)
  {
    if m > 0 {
      ExpSum(m - 1, n);
      assert Exp(m + n) == 2 * (Exp(m - 1) * Exp(n)) == Exp(m) * Exp(n);
    }
  }

  lemma Exp32()
    ensures Exp(32) == 0x1_0000_0000
  {
    assert Exp(2) == 4 && Exp(4) == 16;
    ExpSum(4, 4);
    ExpSum(8, 8);
    ExpSum(16, 16);
  }

  lemma {:induction false} ValueFits(q: seq<bool>)
    ensures Value(q) < Exp(|q|)
  {
    if q != [] {
      ValueFits(q[1..]);
    }
  }

  lemma {:induction false} SameBitsValue(p: seq<bool>, q: seq<bool>)
    requires |p| == |q| && Value(p) == Value(q)
    ensures p == q
  {
    if p != [] {
      SameBitsValue(p[1..], q[1..]);
      assert p == [p[0]] + p[1..] && q == [q[0]] + q[1..];
    }
  }

  predicate Bit(q: seq<bool>, b: nat) {
    b < |q| && q[b]
  }

  function Bits32(q: seq<bool>, j: nat): (r: seq<bool>)
    ensures |r| == 32 && forall k :: 0 <= k < 32 ==> r[k] == Bit(q, 32 * j + k)
  {
    seq(32, k requires 0 <= k < 32 => Bit(q, 32 * j + k))
  }

  // Inodes: 16 words each

  const IWORDS := 16

  /** Two shorts in a word. */
  function Pair(lo: int, hi: int): nat {
    lo % 0x1_0000 + 0x1_0000 * (hi % 0x1_0000)
  }

  predicate Short(x: int) {
    -0x8000 <= x < 0x8000
  }

  predicate UShort(x: int) {
    0 <= x < 0x1_0000
  }

  predicate UInt(x: int) {
    0 <= x < 0x1_0000_0000
  }

  lemma SamePair(a: int, b: int, c: int, d: int)
    requires Pair(a, b) == Pair(c, d)
    ensures (Short(a) && Short(c)) || (UShort(a) && UShort(c)) ==> a == c
    ensures (Short(b) && Short(d)) || (UShort(b) && UShort(d)) ==> b == d
  {
    assert a % 0x1_0000 == c % 0x1_0000 && b % 0x1_0000 == d % 0x1_0000;
  }

  /** The fields fit the types that struct dinode gives them. */
  ghost predicate AttrsFit(ip: Inode) {
    && Short(ip.typ) && Short(ip.major) && Short(ip.minor) && Short(ip.nlink)
    && UShort(ip.uid) && UShort(ip.gid) && UInt(ip.mode)
  }

  ghost predicate InodeFits(ip: Inode) {
    && AttrsFit(ip) && UInt(ip.size)
    && |ip.addrs| == NDIRECT + 1 && forall k :: 0 <= k <= NDIRECT ==> UInt(ip.addrs[k])
  }

  function InodeWord(ip: Inode, k: nat): int
    requires |ip.addrs| == NDIRECT + 1 && k < IWORDS
  {
    match k
    case 0 => Pair(ip.typ, ip.major)
    case 1 => Pair(ip.minor, ip.nlink)
    case 2 => Pair(ip.uid, ip.gid)
    case 3 => ip.mode
    case 4 => ip.size
    case _ => ip.addrs[k - 5]
  }

  lemma SameFields(p: Inode, q: Inode)
    requires InodeFits(p) && InodeFits(q) && forall k: nat :: k < IWORDS ==> InodeWord(p, k) == InodeWord(q, k)
    ensures p == q
  {
    assert InodeWord(p, 0) == InodeWord(q, 0) && InodeWord(p, 1) == InodeWord(q, 1);
    assert InodeWord(p, 2) == InodeWord(q, 2) && InodeWord(p, 3) == InodeWord(q, 3)
      && InodeWord(p, 4) == InodeWord(q, 4);
    SamePair(p.typ, p.major, q.typ, q.major);
    SamePair(p.minor, p.nlink, q.minor, q.nlink);
    SamePair(p.uid, p.gid, q.uid, q.gid);
    forall k | 0 <= k <= NDIRECT ensures p.addrs[k] == q.addrs[k] {
      assert InodeWord(p, k + 5) == InodeWord(q, k + 5);
    }
    assert p.addrs == q.addrs;
  }

  // Blocks

  function ViewWord(v: BlockView, j: nat): int
    requires j < WORDS
  {
    match v
    case Data(b) => if |b| == BSIZE then Word(b, j) else 0
    case Bits(q) => Value(Bits32(q, j))
    case Inodes(q) =>
      if j / IWORDS < |q| && |q[j / IWORDS].addrs| == NDIRECT + 1 then InodeWord(q[j / IWORDS], j % IWORDS) else 0
    case Other => 0
  }

  /** The words of a block. */
  function Encode(v: BlockView): (d: LogModel.Block)
    ensures |d| == WORDS
  {
    seq(WORDS, j requires 0 <= j < WORDS => ViewWord(v, j))
  }

  /** They are words of 32 bits. */
  lemma WordFits(v: BlockView, j: nat)
    requires j < WORDS && (v.Inodes? ==> forall i :: 0 <= i < |v.inodes| ==> InodeFits(v.inodes[i]))
    ensures UInt(Encode(v)[j])
  {
    if v.Bits? {
      ValueFits(Bits32(v.bits, j));
      Exp32();
    }
  }

  lemma SameWord(u: BlockView, v: BlockView, j: nat)
    requires Encode(u) == Encode(v) && j < WORDS
    ensures ViewWord(u, j) == ViewWord(v, j)
  {
    assert Encode(u)[j] == Encode(v)[j];
  }

  lemma DataRead(c: Block, d: Block)
    requires |c| == |d| == BSIZE && Encode(Data(c)) == Encode(Data(d))
    ensures c == d
  {
    forall i | 0 <= i < BSIZE ensures c[i] == d[i] {
      SameWord(Data(c), Data(d), i / 4);
      SameBytes(c, d, i / 4);
      assert c[4 * (i / 4)..4 * (i / 4) + 4][i % 4] == d[4 * (i / 4)..4 * (i / 4) + 4][i % 4];
    }
  }

  lemma MapRead(p: seq<bool>, q: seq<bool>)
    requires |p| == |q| <= BPB && Encode(Bits(p)) == Encode(Bits(q))
    ensures p == q
  {
    forall b | 0 <= b < |p| ensures p[b] == q[b] {
      var j, k := b / 32, b % 32;
      SameWord(Bits(p), Bits(q), j);
      SameBitsValue(Bits32(p, j), Bits32(q, j));
      assert Bits32(p, j)[k] == Bits32(q, j)[k];
    }
  }

  lemma InodesRead(p: seq<Inode>, q: seq<Inode>)
    requires |p| == |q| <= IPB && Encode(Inodes(p)) == Encode(Inodes(q))
    requires forall i :: 0 <= i < |p| ==> InodeFits(p[i]) && InodeFits(q[i])
    ensures p == q
  {
    hide Encode, InodeWord;
    forall i | 0 <= i < |p| ensures p[i] == q[i] {
      forall k: nat | k < IWORDS ensures InodeWord(p[i], k) == InodeWord(q[i], k) {
        SameInodeWord(p, q, i, k);
      }
      SameFields(p[i], q[i]);
    }
  }

  lemma SameInodeWord(p: seq<Inode>, q: seq<Inode>, i: nat, k: nat)
    requires i < |p| == |q| <= IPB && k < IWORDS && Encode(Inodes(p)) == Encode(Inodes(q))
    requires |p[i].addrs| == |q[i].addrs| == NDIRECT + 1
    ensures InodeWord(p[i], k) == InodeWord(q[i], k)
  {
    hide InodeWord, Encode, ViewWord;
    var j := InodePlace(i, k);
    SameWord(Inodes(p), Inodes(q), j);
    WordOfInode(p, i, k, j);
    WordOfInode(q, i, k, j);
  }

  lemma InodePlace(i: nat, k: nat) returns (j: nat)
    requires i < IPB && k < IWORDS
    ensures j == 16 * i + k < WORDS && j / IWORDS == i && j % IWORDS == k
  {
    j := i * 16 + k;
  }

  lemma WordOfInode(q: seq<Inode>, i: nat, k: nat, j: nat)
    requires i < |q| && |q[i].addrs| == NDIRECT + 1 && j < WORDS && j / IWORDS == i && j % IWORDS == k
    ensures ViewWord(Inodes(q), j) == InodeWord(q[i], k)
  {}

  /** What the kind of a block is cannot be told from its words. */
  lemma KindsShareWords()
    ensures Encode(Data(Zero())) == Encode(Bits(seq(BPB, b => false)))
  {
    var none: seq<bool> := seq(BPB, b => false);
    forall j | 0 <= j < WORDS ensures Encode(Data(Zero()))[j] == Encode(Bits(none))[j] {
      NoBits(Bits32(none, j));
    }
  }

  lemma {:induction false} NoBits(q: seq<bool>)
    requires forall k :: 0 <= k < |q| ==> !q[k]
    ensures Value(q) == 0
  {
    if q != [] {
      NoBits(q[1..]);
    }
  }
}
