/**
 Where everything is on the disk, byte by byte: the bytes of a data block, the bits of the free map, and the
 fields of struct dinode.
 */
module DiskBytes {
  import LogModel
  import opened FsModel
  import opened FileSystem
  import opened DiskFormat

  /** Byte `n` of a block of words, the low byte of a word first. */
  function At(d: LogModel.Block, n: nat): int
    requires |d| == WORDS && n < BSIZE
  {
    d[n / 4] / [1, 0x100, 0x1_0000, 0x100_0000][n % 4] % 0x100
  }

  function Half(d: LogModel.Block, n: nat): int
    requires |d| == WORDS && n + 1 < BSIZE
  {
    At(d, n) + 0x100 * At(d, n + 1)
  }

  function Full(d: LogModel.Block, n: nat): int
    requires |d| == WORDS && n + 3 < BSIZE
  {
    Half(d, n) + 0x1_0000 * Half(d, n + 2)
  }

  // Data blocks

  lemma BytesOf(b0: int, b1: int, b2: int, b3: int, w: int)
    requires 0 <= b0 < 0x100 && 0 <= b1 < 0x100 && 0 <= b2 < 0x100 && 0 <= b3 < 0x100
    requires w == b0 + 0x100 * b1 + 0x1_0000 * b2 + 0x100_0000 * b3
    ensures w % 0x100 == b0 && w / 0x100 % 0x100 == b1 && w / 0x1_0000 % 0x100 == b2 && w / 0x100_0000 % 0x100 == b3
  {
    assert w / 0x100 == b1 + 0x100 * (b2 + 0x100 * b3);
    assert w / 0x1_0000 == b2 + 0x100 * b3;
    assert w / 0x100_0000 == b3;
  }

  lemma DataBytes(b: Block, n: nat)
    requires |b| == BSIZE && n < BSIZE
    ensures At(Encode(Data(b)), n) == b[n] as int
  {
    var j := n / 4;
    var w := Word(b, j);
    assert Encode(Data(b))[j] == w;
    assert n == 4 * j + n % 4;
    BytesOf(b[4 * j] as int, b[4 * j + 1] as int, b[4 * j + 2] as int, b[4 * j + 3] as int, w);
  }

  // The free map

  /** Bit `k` of a byte, as the mask `1 << k` picks it. */
  predicate BitSet(x: int, k: nat)
    requires k < 8
  {
    x / [1, 2, 4, 8, 16, 32, 64, 128][k] % 2 == 1
  }

  lemma Doubled(e: nat, hi: nat)
    ensures 2 * (e * hi) == (2 * e) * hi
  {}

  lemma {:induction false} ValueSplit(q: seq<bool>, n: nat)
    requires n <= |q|
    ensures Value(q) == Value(q[..n]) + Exp(n) * Value(q[n..])
  {
    if n == 0 {
      assert q[0..] == q;
    } else {
      ValueSplit(q[1..], n - 1);
      assert q[1..][..n - 1] == q[..n][1..] && q[1..][n - 1..] == q[n..];
      Doubled(Exp(n - 1), Value(q[n..]));
    }
  }

  lemma Exp8(k: nat)
    requires k <= 8
    ensures Exp(k) == [1, 2, 4, 8, 16, 32, 64, 128, 256][k]
  {
    assert Exp(0) == 1 && Exp(1) == 2 && Exp(2) == 4;
    assert Exp(3) == 8 && Exp(4) == 16 && Exp(5) == 32;
    assert Exp(6) == 64 && Exp(7) == 128 && Exp(8) == 256;
  }

  /** The number of 32 bits, cut into bytes. */
  lemma ValueBytes(q: seq<bool>)
    requires |q| == 32
    ensures Value(q) == Value(q[..8]) + 0x100 * Value(q[8..16]) + 0x1_0000 * Value(q[16..24])
              + 0x100_0000 * Value(q[24..])
    ensures Value(q[..8]) < 0x100 && Value(q[8..16]) < 0x100 && Value(q[16..24]) < 0x100 && Value(q[24..]) < 0x100
  {
    Exp8(8);
    ValueSplit(q, 8);
    ValueSplit(q[8..], 8);
    ValueSplit(q[16..], 8);
    assert q[8..][..8] == q[8..16] && q[8..][8..] == q[16..];
    assert q[16..][..8] == q[16..24] && q[16..][8..] == q[24..];
    ValueFits(q[..8]);
    ValueFits(q[8..16]);
    ValueFits(q[16..24]);
    ValueFits(q[24..]);
  }

  lemma {:induction false} NextMultiple(e: nat, a: nat, b: nat)
    requires a < b
    ensures e * b >= e * a + e
    decreases b
  {
    assert e * b == e * (b - 1) + e;
    if a < b - 1 {
      NextMultiple(e, a, b - 1);
    }
  }

  lemma OneQuotient(e: nat, a: nat, b: nat, lo: nat, r: nat)
    requires lo < e && r < e && e * a + lo == e * b + r
    ensures a == b
  {
    if a < b {
      NextMultiple(e, a, b);
    } else if b < a {
      NextMultiple(e, b, a);
    }
  }

  lemma Quotient(lo: nat, e: nat, hi: nat)
    requires lo < e
    ensures (lo + e * hi) / e == hi
  {
    var x := lo + e * hi;
    assert x == e * (x / e) + x % e;
    OneQuotient(e, hi, x / e, lo, x % e);
  }

  lemma ValueBit(q: seq<bool>, k: nat)
    requires k < |q|
    ensures 0 < Exp(k) && Value(q) / Exp(k) % 2 == if q[k] then 1 else 0
  {
    ValueSplit(q, k);
    ValueFits(q[..k]);
    Quotient(Value(q[..k]), Exp(k), Value(q[k..]));
    assert Value(q) / Exp(k) == Value(q[k..]);
    LowBit(q[k..]);
  }

  lemma LowBit(q: seq<bool>)
    requires q != []
    ensures Value(q) % 2 == if q[0] then 1 else 0
  {
    LowDigit(if q[0] then 1 else 0, Value(q[1..]));
  }

  lemma LowDigit(b: nat, v: nat)
    requires b < 2
    ensures (b + 2 * v) % 2 == b
  {}

  lemma ByteBits(q: seq<bool>, k: nat)
    requires |q| == 8 && k < 8
    ensures BitSet(Value(q), k) <==> q[k]
  {
    hide Exp, Value;
    Exp8(k);
    ValueBit(q, k);
  }

  lemma MapByte(q: seq<bool>, n: nat)
    requires n < BSIZE
    ensures At(Encode(Bits(q)), n) == Value(Bits32(q, n / 4)[8 * (n % 4)..8 * (n % 4) + 8])
  {
    hide Value, Bits32;
    var p := Bits32(q, n / 4);
    assert Encode(Bits(q))[n / 4] == Value(p);
    ValueBytes(p);
    BytesOf(Value(p[..8]), Value(p[8..16]), Value(p[16..24]), Value(p[24..]), Value(p));
    assert p[0..8] == p[..8] && p[24..32] == p[24..];
  }

  /** Bit `b` of the map is bit `b % 8` of byte `b / 8`; what the map does not cover is zero. */
  lemma MapBits(q: seq<bool>, b: nat)
    requires b < BPB
    ensures BitSet(At(Encode(Bits(q)), b / 8), b % 8) <==> b < |q| && q[b]
  {
    var n, k := b / 8, b % 8;
    var p := Bits32(q, n / 4);
    MapByte(q, n);
    ByteBits(p[8 * (n % 4)..8 * (n % 4) + 8], k);
    assert 32 * (n / 4) + 8 * (n % 4) + k == b;
    assert p[8 * (n % 4) + k] == Bit(q, b);
  }

  /** The same by words. */
  lemma MapWordBits(q: seq<bool>, b: nat)
    requires b < BPB
    ensures 0 < Exp(b % 32) && Encode(Bits(q))[b / 32] / Exp(b % 32) % 2 == if b < |q| && q[b] then 1 else 0
  {
    hide Exp, Value;
    var p := Bits32(q, b / 32);
    assert Encode(Bits(q))[b / 32] == Value(p);
    ValueBit(p, b % 32);
    assert p[b % 32] == Bit(q, b);
  }

  // Inodes

  lemma HalvesOf(d: LogModel.Block, j: nat)
    requires |d| == WORDS && j < WORDS && UInt(d[j])
    ensures Full(d, 4 * j) == d[j] && UShort(Half(d, 4 * j)) && UShort(Half(d, 4 * j + 2))
  {
    var w := d[j];
    var w1 := w / 0x100;
    var w2 := w1 / 0x100;
    var w3 := w2 / 0x100;
    BytesOf(w % 0x100, w1 % 0x100, w2 % 0x100, w3, w);
    assert At(d, 4 * j) == w % 0x100 && At(d, 4 * j + 1) == w1 % 0x100;
    assert At(d, 4 * j + 2) == w2 % 0x100 && At(d, 4 * j + 3) == w3;
  }

  lemma InodeHalves(q: seq<Inode>, i: nat, k: nat)
    requires i < |q| <= IPB && InodeFits(q[i]) && k < 16
    ensures var d, n := Encode(Inodes(q)), 64 * i + 4 * k;
      && n + 3 < BSIZE && Full(d, n) == InodeWord(q[i], k) && UShort(Half(d, n)) && UShort(Half(d, n + 2))
  {
    hide Half, Full, InodeWord, Pair, UInt, UShort, ViewWord, InodeFits, AttrsFit, Encode;
    InodeWordFits(q[i], k);
    InodeHasAddrs(q[i]);
    EncodedWord(q, i, k);
    HalvesOf(Encode(Inodes(q)), 16 * i + k);
  }

  lemma EncodedWord(q: seq<Inode>, i: nat, k: nat)
    requires i < |q| <= IPB && |q[i].addrs| == NDIRECT + 1 && k < 16
    ensures 16 * i + k < WORDS && Encode(Inodes(q))[16 * i + k] == InodeWord(q[i], k)
  {
    hide InodeWord, ViewWord;
    var j := InodePlace(i, k);
    WordOfInode(q, i, k, j);
  }

  lemma InodeHasAddrs(ip: Inode)
    requires InodeFits(ip)
    ensures |ip.addrs| == NDIRECT + 1
  {}

  lemma InodeWordFits(ip: Inode, k: nat)
    requires InodeFits(ip) && k < 16
    ensures UInt(InodeWord(ip, k))
  {}

  lemma PairHalves(lo: int, hi: int, d: LogModel.Block, n: nat)
    requires |d| == WORDS && n + 3 < BSIZE && UShort(Half(d, n)) && UShort(Half(d, n + 2)) && Full(d, n) == Pair(lo, hi)
    ensures Half(d, n) == lo % 0x1_0000 && Half(d, n + 2) == hi % 0x1_0000
  {
    hide Half;
  }

  /** The fields of inode `i` of a block, each at its offset in struct dinode; shorts in two's complement. */
  lemma InodeBytes(q: seq<Inode>, i: nat)
    requires i < |q| <= IPB && InodeFits(q[i])
    ensures var d, ip, at := Encode(Inodes(q)), q[i], 64 * i;
      && at + 64 <= BSIZE
      && Half(d, at) == ip.typ % 0x1_0000 && Half(d, at + 2) == ip.major % 0x1_0000
      && Half(d, at + 4) == ip.minor % 0x1_0000 && Half(d, at + 6) == ip.nlink % 0x1_0000
      && Half(d, at + 8) == ip.uid && Half(d, at + 10) == ip.gid
      && Full(d, at + 12) == ip.mode && Full(d, at + 16) == ip.size
      && forall k :: 0 <= k <= NDIRECT ==> Full(d, at + 20 + 4 * k) == ip.addrs[k]
  {
    hide Half, Full, At, Encode, Pair;
    var ip := q[i];
    InodeHalves(q, i, 0);
    InodeHalves(q, i, 1);
    InodeHalves(q, i, 2);
    InodeHalves(q, i, 3);
    InodeHalves(q, i, 4);
    var d := Encode(Inodes(q));
    PairHalves(ip.typ, ip.major, d, 64 * i);
    PairHalves(ip.minor, ip.nlink, d, 64 * i + 4);
    PairHalves(ip.uid, ip.gid, d, 64 * i + 8);
    forall k | 0 <= k <= NDIRECT ensures Full(d, 64 * i + 20 + 4 * k) == ip.addrs[k] {
      InodeHalves(q, i, k + 5);
    }
  }

  // Files

  /** Four bytes of a block. */
  function Four(b: Block, n: nat): int
    requires n + 3 < |b|
  {
    (b[n] as int) + 0x100 * (b[n + 1] as int) + 0x1_0000 * (b[n + 2] as int) + 0x100_0000 * (b[n + 3] as int)
  }

  /** Byte `p` of a file: ten blocks are in the inode, and the others in the block that the last address names. */
  lemma FileBytes(g: Geometry, im: Image, owner: Owner, i: nat, p: nat)
    requires Sound(g, im, owner) && i < g.ninodes && p < im.inodes[i].size
    ensures var ad := im.inodes[i].addrs;
      var n := p / 512;
      && |ad| == 11 && n < 10 + 128 && |im.data| == g.size
      && (n >= 10 ==> 0 < ad[10] < g.size && |im.data[ad[10]]| == 512)
      && var a := if n < 10 then ad[n] else Four(im.data[ad[10]], 4 * (n - 10));
         && 0 < a < g.size && |im.data[a]| == 512
         && Contents(g, im, owner, i)[p] == im.data[a][p % 512]
  {
    assert NoHoles(g, im, i);
    OwnedShape(g, im, owner);
    var nb := NBlocks(im.inodes[i].size);
    SizeInBlocks(im.inodes[i].size, p);
    ByteThere(g, im, owner, i, nb, p);
  }
}
