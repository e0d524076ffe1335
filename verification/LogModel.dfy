/**
 The redo log of log.c as a machine that takes one block write at a time and may crash between any two.
 Memory is the cache contents as every bread sees them; a crash keeps the disk and loses the rest.
 */
module LogModel {
  import opened Seqs

  // param.h
  const MAXOPBLOCKS := 10
  const LOGSIZE := MAXOPBLOCKS * 3

  /** Words in a block: BSIZE / sizeof(int). */
  const WORDS := 128

  type Block = seq<int>
  type Disk = seq<Block>

  /** The log occupies `size` blocks from `start`: the header block, then the logged blocks. */
  datatype Layout = Layout(start: nat, size: nat, nblocks: nat)

  ghost predicate Fits(L: Layout) {
    L.size >= 1 && L.start + L.size <= L.nblocks
  }

  predicate InLog(L: Layout, b: int) {
    L.start <= b < L.start + L.size
  }

  predicate Home(L: Layout, b: int) {
    0 <= b < L.nblocks && !InLog(L, b)
  }

  ghost predicate DiskOk(L: Layout, d: Disk) {
    && Fits(L)
    && |d| == L.nblocks
    && forall b :: 0 <= b < |d| ==> |d[b]| == WORDS
  }

  // The header block: a count, then the home block numbers

  function N(L: Layout, d: Disk): int
    requires DiskOk(L, d)
  {
    d[L.start][0]
  }

  function Target(L: Layout, d: Disk, i: nat): int
    requires DiskOk(L, d) && i < LOGSIZE
  {
    d[L.start][1 + i]
  }

  function Header(was: Block, blocks: seq<nat>): (h: Block)
    requires |was| == WORDS && |blocks| <= LOGSIZE
    ensures |h| == WORDS && h[0] == |blocks|
    ensures forall i :: 0 <= i < |blocks| ==> h[1 + i] == blocks[i]
  {
    [|blocks|] + blocks + was[1 + |blocks|..]
  }

  ghost predicate HeaderOk(L: Layout, d: Disk) {
    && DiskOk(L, d)
    && 0 <= N(L, d) <= LOGSIZE
    && N(L, d) < L.size
    && (forall i :: 0 <= i < N(L, d) ==> Home(L, Target(L, d, i)))
    && (forall i, j :: 0 <= i < j < N(L, d) ==> Target(L, d, i) != Target(L, d, j))
  }

  /** The home block numbers in the header, as read_head loads them. */
  function Targets(L: Layout, d: Disk): (q: seq<nat>)
    requires HeaderOk(L, d)
    ensures |q| == N(L, d)
    ensures forall i :: 0 <= i < |q| ==> q[i] == Target(L, d, i)
  {
    seq(N(L, d), i requires 0 <= i < N(L, d) => Target(L, d, i) as nat)
  }

  function LogBlock(L: Layout, d: Disk, i: nat): Block
    requires DiskOk(L, d) && i + 1 < L.size
  {
    d[L.start + 1 + i]
  }

  /** The first `k` logged blocks copied to their home locations. */
  function Install(L: Layout, d: Disk, k: nat): (r: Disk)
    requires HeaderOk(L, d) && k <= N(L, d)
    ensures |r| == |d|
    ensures forall b :: 0 <= b < |d| && InLog(L, b) ==> r[b] == d[b]
  {
    if k == 0 then d else Install(L, d, k - 1)[Target(L, d, k - 1) := LogBlock(L, d, k - 1)]
  }

  /** What lies outside the log. */
  function HomeOf(L: Layout, d: Disk): (h: Disk)
    ensures |h| == |d|
    ensures forall b :: 0 <= b < |d| ==> h[b] == if InLog(L, b) then [] else d[b]
  {
    seq(|d|, b requires 0 <= b < |d| => if InLog(L, b) then [] else d[b])
  }

  /** The file system a recovery would find on this disk. */
  function Durable(L: Layout, d: Disk): Disk
    requires HeaderOk(L, d)
  {
    HomeOf(L, Install(L, d, N(L, d)))
  }

  // The machine

  datatype Phase =
    | Up
    | Logging(k: nat)
    | Installing(k: nat, boot: bool)
    | Down

  /** `blocks` is the in-memory header, `ops` counts the log_write calls of each operation in progress. */
  datatype Machine = Machine(disk: Disk, mem: Disk, blocks: seq<nat>, ops: map<nat, nat>, phase: Phase)

  datatype Event =
    | Begin(o: nat)
    | Write(o: nat, b: nat, v: Block)
    | End(o: nat)
    | DiskWrite
    | Crash
    | Reboot

  /** The panic of log_write, log.c:215-216. */
  predicate TooBig(L: Layout, m: Machine) {
    |m.blocks| >= LOGSIZE || |m.blocks| >= L.size - 1
  }

  /** The test of begin_op, log.c:131. */
  predicate MayBegin(m: Machine) {
    |m.blocks| + (|m.ops| + 1) * MAXOPBLOCKS <= LOGSIZE
  }

  /** write_log and then write_head: log.c:174-187, 194. */
  function LogWriteAt(L: Layout, m: Machine, k: nat): (w: (nat, Block))
    requires DiskOk(L, m.disk) && DiskOk(L, m.mem) && |m.blocks| <= LOGSIZE && |m.blocks| < L.size && k <= |m.blocks|
    requires forall i :: 0 <= i < |m.blocks| ==> m.blocks[i] < L.nblocks
    ensures w.0 < L.nblocks && |w.1| == WORDS
  {
    if k < |m.blocks| then (L.start + 1 + k, m.mem[m.blocks[k]])
    else (L.start, Header(m.disk[L.start], m.blocks))
  }

  /** install_trans and then the write_head that clears the log: log.c:69-81, 119-120, 195-197. */
  function InstallAt(L: Layout, d: Disk, k: nat): (w: (nat, Block))
    requires HeaderOk(L, d) && k <= N(L, d)
    ensures w.0 < L.nblocks && |w.1| == WORDS
  {
    if k < N(L, d) then (Target(L, d, k), LogBlock(L, d, k))
    else (L.start, Header(d[L.start], []))
  }

  ghost predicate Enabled(L: Layout, m: Machine, e: Event) {
    match e
    case Begin(o) => m.phase.Up? && o !in m.ops && MayBegin(m)
    case Write(o, b, v) => m.phase.Up? && o in m.ops && Home(L, b) && |v| == WORDS && !TooBig(L, m)
    case End(o) => m.phase.Up? && o in m.ops
    case DiskWrite => m.phase.Logging? || m.phase.Installing?
    case Crash => !m.phase.Down?
    case Reboot => m.phase.Down?
  }

  ghost predicate BlocksOk(L: Layout, blocks: seq<nat>) {
    && NoDup(blocks)
    && |blocks| <= LOGSIZE
    && |blocks| < L.size
    && forall i :: 0 <= i < |blocks| ==> Home(L, blocks[i])
  }

  /** Outside the log and the logged blocks, memory and disk agree. */
  ghost predicate Clean(L: Layout, m: Machine) {
    && DiskOk(L, m.mem)
    && HeaderOk(L, m.disk)
    && forall b: nat :: b < L.nblocks && !InLog(L, b) && b !in m.blocks ==> m.mem[b] == m.disk[b]
  }

  ghost predicate Logged(L: Layout, m: Machine, k: nat)
    requires DiskOk(L, m.mem) && DiskOk(L, m.disk) && BlocksOk(L, m.blocks) && k <= |m.blocks|
  {
    forall i :: 0 <= i < k ==> LogBlock(L, m.disk, i) == m.mem[m.blocks[i]]
  }

  ghost predicate Installed(L: Layout, d: Disk, k: nat)
    requires HeaderOk(L, d) && k <= N(L, d)
  {
    forall i :: 0 <= i < k ==> d[Target(L, d, i)] == LogBlock(L, d, i)
  }

  ghost predicate Inv(L: Layout, m: Machine) {
    && HeaderOk(L, m.disk)
    && match m.phase
       case Up =>
         N(L, m.disk) == 0 && Clean(L, m) && BlocksOk(L, m.blocks)
       case Logging(k) =>
         && N(L, m.disk) == 0 && Clean(L, m) && BlocksOk(L, m.blocks)
         && m.ops == map[] && k <= |m.blocks| && Logged(L, m, k)
       case Installing(k, boot) =>
         && m.ops == map[] && k <= N(L, m.disk) && Installed(L, m.disk, k)
         && m.blocks == Targets(L, m.disk)
         && DiskOk(L, m.mem)
         && (if boot then m.mem == m.disk else Durable(L, m.disk) == HomeOf(L, m.mem))
       case Down => m.ops == map[]
  }

  /** One block write; the cached copy of the block follows. */
  function PutBlock(m: Machine, w: (nat, Block), phase: Phase): Machine
    requires w.0 < |m.disk| == |m.mem|
  {
    m.(disk := m.disk[w.0 := w.1], mem := m.mem[w.0 := w.1], phase := phase)
  }

  function DoDiskWrite(L: Layout, m: Machine): (r: Machine)
    requires Inv(L, m) && Enabled(L, m, DiskWrite)
  {
    match m.phase
    case Logging(k) =>
      PutBlock(m, LogWriteAt(L, m, k), if k < |m.blocks| then Logging(k + 1) else Installing(0, false))
    case Installing(k, boot) =>
      if k < N(L, m.disk) then PutBlock(m, InstallAt(L, m.disk, k), Installing(k + 1, boot))
      else PutBlock(m, InstallAt(L, m.disk, k), Up).(blocks := [])
  }

  function Step(L: Layout, m: Machine, e: Event): (r: Machine)
    requires Inv(L, m) && Enabled(L, m, e)
  {
    match e
    case Begin(o) => m.(ops := m.ops[o := 0])
    case Write(o, b, v) =>
      m.(mem := m.mem[b := v],
         ops := m.ops[o := m.ops[o] + 1],
         blocks := if b in m.blocks then m.blocks else m.blocks + [b])
    case End(o) =>
      var ops := m.ops - {o};
      m.(ops := ops, phase := if ops == map[] && m.blocks != [] then Logging(0) else Up)
    case DiskWrite => DoDiskWrite(L, m)
    case Crash => Machine(m.disk, [], [], map[], Down)
    case Reboot => m.(mem := m.disk, blocks := Targets(L, m.disk), phase := Installing(0, true))
  }

  // What the machine is meant to be: a store with a durable and a volatile copy

  datatype Store = Store(durable: Disk, volatile: Disk)

  datatype Act = Put(b: nat, v: Block) | Commit | Lose | Skip

  function Apply(s: Store, a: Act): Store {
    match a
    case Put(b, v) => if b < |s.volatile| then s.(volatile := s.volatile[b := v]) else s
    case Commit => s.(durable := s.volatile)
    case Lose => s.(volatile := s.durable)
    case Skip => s
  }

  /** The commit point is the header write, and only it; everything else on the disk is invisible. */
  function ActOf(m: Machine, e: Event): Act {
    match e
    case Write(o, b, v) => Put(b, v)
    case Crash => Lose
    case DiskWrite => if m.phase.Logging? && m.phase.k == |m.blocks| then Commit else Skip
    case _ => Skip
  }

  ghost function Abs(L: Layout, m: Machine): Store
    requires Inv(L, m)
  {
    var d := Durable(L, m.disk);
    Store(d, if m.phase.Down? || (m.phase.Installing? && m.phase.boot) then d else HomeOf(L, m.mem))
  }
}
