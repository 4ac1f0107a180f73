/**
  The redo log over the buffer cache as one state machine: every interleaving of processes that read, modify,
  log and release buffers inside operations, of the commit those operations lead to, of crashes at any point
  and of the recovery that follows.
 */
module LogCache {
  import opened Prelude
  import opened RedoLog

  const NBUF: nat := 30
  const MAXOPBLOCKS: nat := 10

  type Pid = nat

  /** A buffer; `block` is `None` while its device number is still zero.  `users` are the processes between
      their bget and their brelse, `owner` the one that holds the sleep lock. */
  datatype Buf = Buf(block: Option<nat>, valid: bool, refcnt: nat, users: set<Pid>, owner: Option<Pid>, data: Block)

  /** What the log is doing.  `k` counts the disk writes made so far by the commit of `tx`, or by recovery, that
      found the disk as `base`. */
  datatype Phase =
    | Idle
    | Committing(p: Pid, base: Disk, tx: Transaction, k: nat)
    | Recovering(p: Pid, base: Disk, started: bool, k: nat)

  datatype State = State(
    start: nat,                // first block of the log: its header
    disk: Disk,
    bufs: seq<Buf>,
    lru: seq<nat>,             // buffers, most recently released first
    blocks: seq<int>,          // the in-memory log header
    outstanding: int,
    ops: map<Pid, set<int>>,   // running operations, with the blocks each has logged
    asleep: set<Pid>,          // processes asleep in begin_op
    dirty: set<int>,           // blocks changed and not yet logged
    phase: Phase,
    flat: Disk,                // the disk that readers and writers see
    durable: Disk)             // the disk that survives a crash

  datatype Action =
    | Bget(p: Pid, b: nat)
    | Acquire(p: Pid, i: nat)
    | ReadDisk(p: Pid, i: nat)
    | Modify(p: Pid, i: nat, data: Block)
    | LogWrite(p: Pid, i: nat)
    | Release(p: Pid, i: nat)
    | BeginOp(p: Pid)
    | EndOp(p: Pid)
    | CommitWrite(p: Pid, i: nat, j: nat)
    | CommitDone(p: Pid)
    | Crash(p: Pid)
    | RecoverRead(p: Pid, i: nat)
    | RecoverWrite(p: Pid, i: nat, j: nat)
    | RecoverDone(p: Pid)

  // ----- The cache -----

  function FindCached(bufs: seq<Buf>, b: nat): (r: Option<nat>)
    ensures r.Some? ==> r.value < |bufs| && bufs[r.value].block == Some(b)
    ensures r.None? ==> forall i :: 0 <= i < |bufs| ==> bufs[i].block != Some(b)
  {
    if bufs == [] then None
    else if bufs[|bufs| - 1].block == Some(b) then Some(|bufs| - 1)
    else FindCached(bufs[..|bufs| - 1], b)
  }

  /** The least recently released buffer that nobody refers to. */
  function Victim(bufs: seq<Buf>, lru: seq<nat>): (r: Option<nat>)
    requires forall i :: 0 <= i < |lru| ==> lru[i] < |bufs|
    ensures r.Some? ==> r.value < |bufs| && bufs[r.value].refcnt == 0
    ensures r.None? ==> forall i :: 0 <= i < |lru| ==> bufs[lru[i]].refcnt != 0
  {
    if lru == [] then None
    else if bufs[lru[|lru| - 1]].refcnt == 0 then Some(lru[|lru| - 1])
    else Victim(bufs, lru[..|lru| - 1])
  }

  function Without(lru: seq<nat>, i: nat): seq<nat> {
    if lru == [] then []
    else if lru[0] == i then Without(lru[1..], i)
    else [lru[0]] + Without(lru[1..], i)
  }

  ghost predicate OwnsBlock(s: State, p: Pid, i: nat, b: int) {
    i < |s.bufs| && s.bufs[i].owner == Some(p) && s.bufs[i].valid && b >= 0 && s.bufs[i].block == Some(b)
  }

  ghost predicate IsDirty(s: State, i: nat)
    requires i < |s.bufs|
  {
    s.bufs[i].block.Some? && s.bufs[i].block.value in s.dirty
  }

  // ----- Steps -----

  /** The block that the next write of a commit goes to, and the block it copies from. */
  function CommitDst(start: nat, tx: Transaction, k: nat): int
    requires k <= 2 * |tx.blocks| + 1
  {
    var n := |tx.blocks|;
    if k < n then start + k + 1 else if k == n || k == 2 * n + 1 then start else tx.blocks[k - n - 1]
  }

  function CommitSrc(start: nat, tx: Transaction, k: nat): int
    requires k <= 2 * |tx.blocks| + 1
  {
    var n := |tx.blocks|;
    if k < n then tx.blocks[k] else if k == n || k == 2 * n + 1 then start else start + k - n
  }

  /** Whether the next write of a commit is a header write. */
  predicate IsHeadWrite(tx: Transaction, k: nat) {
    k == |tx.blocks| || k == 2 * |tx.blocks| + 1
  }

  ghost predicate Enabled(s: State, a: Action)
    requires Shape(s)
  {
    var others := s.phase.Recovering? ==> a.p == s.phase.p;
    match a
    case Bget(p, b) =>
      && others && b < |s.disk|
      && var r := FindCached(s.bufs, b);
         if r.Some? then p !in s.bufs[r.value].users else Victim(s.bufs, s.lru).Some?
    case Acquire(p, i) => others && i < NBUF && p in s.bufs[i].users && s.bufs[i].owner == None
    case ReadDisk(p, i) => others && i < NBUF && s.bufs[i].owner == Some(p) && s.bufs[i].block.Some? && !s.bufs[i].valid
    case Modify(p, i, data) =>
      && i < NBUF && s.bufs[i].owner == Some(p) && s.bufs[i].valid && p in s.ops
      && s.bufs[i].block.Some? && !InLog(s.start, s.bufs[i].block.value) && |data| == WORDS
    case LogWrite(p, i) =>
      && i < NBUF && s.bufs[i].owner == Some(p) && s.bufs[i].valid && p in s.ops
      && s.bufs[i].block.Some? && !InLog(s.start, s.bufs[i].block.value)
      && |s.ops[p] + {s.bufs[i].block.value as int}| < MAXOPBLOCKS
    case Release(p, i) => others && i < NBUF && s.bufs[i].owner == Some(p) && !IsDirty(s, i)
    case BeginOp(p) => !s.phase.Recovering? && p !in s.ops
    case EndOp(p) =>
      !s.phase.Recovering? && p in s.ops && forall i :: 0 <= i < NBUF && s.bufs[i].owner == Some(p) ==> !IsDirty(s, i)
    case CommitWrite(p, i, j) =>
      && s.phase.Committing? && p == s.phase.p && s.phase.tx.blocks != [] && s.phase.k <= 2 * |s.phase.tx.blocks| + 1
      && OwnsBlock(s, p, i, CommitDst(s.start, s.phase.tx, s.phase.k))
      && OwnsBlock(s, p, j, CommitSrc(s.start, s.phase.tx, s.phase.k))
    case CommitDone(p) =>
      s.phase.Committing? && p == s.phase.p && (s.phase.tx.blocks == [] || s.phase.k == 2 * |s.phase.tx.blocks| + 2)
    case Crash(_) => true
    case RecoverRead(p, i) => s.phase.Recovering? && p == s.phase.p && !s.phase.started && OwnsBlock(s, p, i, s.start)
                              && HeadOk(s.bufs[i].data)
    case RecoverWrite(p, i, j) =>
      && s.phase.Recovering? && p == s.phase.p && s.phase.started && s.phase.k <= |s.blocks|
      && if s.phase.k < |s.blocks|
         then OwnsBlock(s, p, i, s.blocks[s.phase.k]) && OwnsBlock(s, p, j, s.start + s.phase.k + 1)
         else OwnsBlock(s, p, i, s.start) && OwnsBlock(s, p, j, s.start)
    case RecoverDone(p) => s.phase.Recovering? && p == s.phase.p && s.phase.k > 0 && s.blocks == []
  }

  function DoBget(s: State, p: Pid, b: nat): State
    requires |s.bufs| == NBUF && forall i :: 0 <= i < |s.lru| ==> s.lru[i] < NBUF
    requires FindCached(s.bufs, b).Some? || Victim(s.bufs, s.lru).Some?
  {
    match FindCached(s.bufs, b)
    case Some(i) =>
      var buf := s.bufs[i];
      s.(bufs := s.bufs[i := buf.(refcnt := buf.refcnt + 1, users := buf.users + {p})])
    case None =>
      var i := Victim(s.bufs, s.lru).value;
      s.(bufs := s.bufs[i := s.bufs[i].(block := Some(b), valid := false, refcnt := 1, users := {p}, owner := None)])
  }

  function DoLogWrite(s: State, p: Pid, i: nat): State
    requires i < |s.bufs| && p in s.ops && s.bufs[i].block.Some?
  {
    var b := s.bufs[i].block.value as int;
    var s1 := s.(ops := s.ops[p := s.ops[p] + {b}], dirty := s.dirty - {b});
    if b in s.blocks then s1
    else s1.(blocks := s.blocks + [b], bufs := s.bufs[i := s.bufs[i].(refcnt := s.bufs[i].refcnt + 1)])
  }

  function Decrement(n: nat): nat {
    if n == 0 then 0 else n - 1
  }

  function DoRelease(s: State, p: Pid, i: nat): State
    requires i < |s.bufs|
  {
    var buf := s.bufs[i].(refcnt := Decrement(s.bufs[i].refcnt), users := s.bufs[i].users - {p}, owner := None);
    s.(bufs := s.bufs[i := buf], lru := if buf.refcnt == 0 then [i] + Without(s.lru, i) else s.lru)
  }

  /** begin_op: sleeps while a commit runs or the log might not have room, otherwise joins. */
  function DoBeginOp(s: State, p: Pid): State {
    if s.phase.Committing? || |s.blocks| + (s.outstanding + 1) * MAXOPBLOCKS > LOGBLOCKS
    then s.(asleep := s.asleep + {p})
    else s.(outstanding := s.outstanding + 1, ops := s.ops[p := {}], asleep := s.asleep - {p})
  }

  /** The contents of the blocks as everyone sees them. */
  function FlatData(flat: Disk, blocks: seq<int>): (r: seq<Block>)
    requires forall i :: 0 <= i < |blocks| ==> 0 <= blocks[i] < |flat|
    ensures |r| == |blocks| && forall i :: 0 <= i < |blocks| ==> r[i] == flat[blocks[i]]
  {
    if blocks == [] then []
    else FlatData(flat, blocks[..|blocks| - 1]) + [flat[blocks[|blocks| - 1]]]
  }

  /** end_op: the last operation out starts the commit, any other wakes those asleep. */
  function DoEndOp(s: State, p: Pid): State
    requires forall i :: 0 <= i < |s.blocks| ==> 0 <= s.blocks[i] < |s.flat|
  {
    var s1 := s.(outstanding := s.outstanding - 1, ops := s.ops - {p});
    if s1.outstanding == 0
    then s1.(phase := Committing(p, s.disk, Transaction(s.blocks, FlatData(s.flat, s.blocks)), 0))
    else s1.(asleep := {})
  }

  /** One write of write_log, write_head or install_trans, the last with its unpin. */
  function DoCommitWrite(s: State, p: Pid, i: nat, j: nat): State
    requires s.phase.Committing? && s.phase.k <= 2 * |s.phase.tx.blocks| + 1
    requires i < |s.bufs| && j < |s.bufs| && |s.bufs[i].data| == WORDS && |s.blocks| <= LOGBLOCKS
    requires 0 <= CommitDst(s.start, s.phase.tx, s.phase.k) < |s.disk| == |s.flat|
  {
    var n, k := |s.phase.tx.blocks|, s.phase.k;
    var dst := CommitDst(s.start, s.phase.tx, k);
    var blocks := if k == 2 * n + 1 then [] else s.blocks;
    var data := if IsHeadWrite(s.phase.tx, k) then PutHead(s.bufs[i].data, blocks) else s.bufs[j].data;
    var unpinned := if n < k < 2 * n + 1 then Decrement(s.bufs[i].refcnt) else s.bufs[i].refcnt;
    var buf := s.bufs[i].(data := data, refcnt := unpinned);
    var flat := s.flat[dst := data];
    s.(disk := s.disk[dst := data], bufs := s.bufs[i := buf], blocks := blocks, flat := flat,
       phase := Committing(s.phase.p, s.phase.base, s.phase.tx, k + 1), durable := if k == n then flat else s.durable)
  }

  function EmptyBuf(): Buf {
    Buf(None, false, 0, {}, None, [])
  }

  function DoCrash(s: State, p: Pid): State {
    s.(bufs := seq(NBUF, _ => EmptyBuf()), lru := seq(NBUF, i => i), blocks := [], outstanding := 0, ops := map[],
       asleep := {}, dirty := {}, phase := Recovering(p, s.disk, false, 0), flat := s.durable)
  }

  function DoRecoverWrite(s: State, p: Pid, i: nat, j: nat): State
    requires s.phase.Recovering? && s.phase.k <= |s.blocks| && i < |s.bufs| && j < |s.bufs| && s.start < |s.disk|
    requires s.phase.k < |s.blocks| ==> 0 <= s.blocks[s.phase.k] < |s.disk|
    requires |s.bufs[i].data| == WORDS
  {
    var k := s.phase.k;
    var dst := if k < |s.blocks| then s.blocks[k] else s.start;
    var data := if k < |s.blocks| then s.bufs[j].data else PutHead(s.bufs[i].data, []);
    s.(disk := s.disk[dst := data], bufs := s.bufs[i := s.bufs[i].(data := data)],
       phase := Recovering(s.phase.p, s.phase.base, s.phase.started, k + 1),
       blocks := if k < |s.blocks| then s.blocks else [])
  }

  ghost function Do(s: State, a: Action): State
    requires Shape(s) && Enabled(s, a)
  {
    match a
    case Bget(p, b) => DoBget(s, p, b)
    case Acquire(p, i) => s.(bufs := s.bufs[i := s.bufs[i].(owner := Some(p))])
    case ReadDisk(p, i) => s.(bufs := s.bufs[i := s.bufs[i].(valid := true, data := s.disk[s.bufs[i].block.value])])
    case Modify(p, i, data) =>
      s.(bufs := s.bufs[i := s.bufs[i].(data := data)], flat := s.flat[s.bufs[i].block.value := data],
         dirty := s.dirty + {s.bufs[i].block.value})
    case LogWrite(p, i) => DoLogWrite(s, p, i)
    case Release(p, i) => DoRelease(s, p, i)
    case BeginOp(p) => DoBeginOp(s, p)
    case EndOp(p) => DoEndOp(s, p)
    case CommitWrite(p, i, j) => DoCommitWrite(s, p, i, j)
    case CommitDone(p) => s.(phase := Idle, asleep := {})
    case Crash(p) => DoCrash(s, p)
    case RecoverRead(p, i) =>
      s.(blocks := GetHead(s.bufs[i].data), phase := Recovering(s.phase.p, s.phase.base, true, s.phase.k))
    case RecoverWrite(p, i, j) => DoRecoverWrite(s, p, i, j)
    case RecoverDone(p) => s.(phase := Idle, flat := s.disk)
  }

  // ----- The invariant -----

  ghost predicate BufsShape(bufs: seq<Buf>, lru: seq<nat>, size: nat) {
    && |bufs| == NBUF
    && (forall i :: 0 <= i < |lru| ==> lru[i] < NBUF)
    && (forall i :: 0 <= i < NBUF ==> i in lru)
    && (forall i :: 0 <= i < NBUF && bufs[i].block.Some? ==> bufs[i].block.value < size)
    && (forall i :: 0 <= i < NBUF && bufs[i].valid ==> |bufs[i].data| == WORDS && bufs[i].block.Some?)
  }

  ghost predicate DiskShape(d: Disk, size: nat) {
    |d| == size && forall b :: 0 <= b < |d| ==> |d[b]| == WORDS
  }

  ghost predicate Shape(s: State) {
    && BufsShape(s.bufs, s.lru, |s.disk|)
    && s.start + LOGBLOCKS < |s.disk|
    && DiskShape(s.disk, |s.disk|) && DiskShape(s.flat, |s.disk|) && DiskShape(s.durable, |s.disk|)
    && HomeBlocks(s.disk, s.start, s.blocks)
  }

  /** The logged blocks that install_trans has not unpinned yet. */
  function PinnedBlocks(phase: Phase, blocks: seq<int>): seq<int> {
    match phase
    case Idle => blocks
    case Committing(_, _, tx, k) =>
      if k <= |tx.blocks| + 1 then blocks
      else if k - |tx.blocks| - 1 <= |blocks| then blocks[k - |tx.blocks| - 1..]
      else []
    case Recovering(_, _, _, _) => []
  }

  function Elements(xs: seq<int>): set<int> {
    set x | x in xs
  }

  function Pinned(phase: Phase, blocks: seq<int>): set<int> {
    Elements(PinnedBlocks(phase, blocks))
  }

  function Pins(s: State): set<int> {
    Pinned(s.phase, s.blocks)
  }

  /** What readers expect in the buffers: during recovery the disk itself, otherwise the flat disk. */
  function Expected(s: State): Disk {
    if s.phase.Recovering? then s.disk else s.flat
  }

  /** No two buffers hold the same block. */
  ghost predicate Unique(bufs: seq<Buf>) {
    forall i: nat, j: nat {:trigger Apart(bufs, i, j)} :: i < j < |bufs| ==> Apart(bufs, i, j)
  }

  predicate Apart(bufs: seq<Buf>, i: nat, j: nat) {
    i < |bufs| && j < |bufs| && (bufs[i].block.Some? ==> bufs[i].block != bufs[j].block)
  }

  /** The reference count of a buffer counts its users and its pin. */
  ghost predicate RefsOk(buf: Buf, pins: set<int>) {
    && buf.refcnt == |buf.users| + (if buf.block.Some? && buf.block.value in pins then 1 else 0)
    && (buf.owner.Some? ==> buf.owner.value in buf.users)
    && (buf.users != {} ==> buf.block.Some?)
  }

  ghost predicate RefsInv(bufs: seq<Buf>, pins: set<int>) {
    forall i {:trigger RefsOk(bufs[i], pins)} :: 0 <= i < |bufs| ==> RefsOk(bufs[i], pins)
  }

  /** A valid buffer holds what readers expect of its block. */
  ghost predicate DataOk(buf: Buf, expected: Disk) {
    buf.valid && buf.block.Some? && buf.block.value < |expected| ==> buf.data == expected[buf.block.value]
  }

  ghost predicate DataInv(bufs: seq<Buf>, expected: Disk) {
    forall i {:trigger DataOk(bufs[i], expected)} :: 0 <= i < |bufs| ==> DataOk(bufs[i], expected)
  }

  predicate HoldsAt(bufs: seq<Buf>, i: nat, b: int) {
    i < |bufs| && b >= 0 && bufs[i].block == Some(b) && bufs[i].valid
  }

  ghost predicate Cached(bufs: seq<Buf>, b: int) {
    exists i: nat {:trigger HoldsAt(bufs, i, b)} :: HoldsAt(bufs, i, b)
  }

  /** Pinned blocks are cached. */
  ghost predicate PinsInv(bufs: seq<Buf>, pins: set<int>) {
    forall b :: b in pins ==> Cached(bufs, b)
  }

  /** Block `b` is cached in a buffer locked by a process that is inside an operation. */
  ghost predicate HeldInOp(bufs: seq<Buf>, ops: map<Pid, set<int>>, b: int) {
    exists i: nat {:trigger HeldAt(bufs, ops, i, b)} :: HeldAt(bufs, ops, i, b)
  }

  predicate HeldAt(bufs: seq<Buf>, ops: map<Pid, set<int>>, i: nat, b: int) {
    HoldsAt(bufs, i, b) && bufs[i].owner.Some? && bufs[i].owner.value in ops
  }

  ghost predicate DirtyInv(start: nat, bufs: seq<Buf>, ops: map<Pid, set<int>>, dirty: set<int>) {
    forall b {:trigger b in dirty} :: b in dirty ==> !InLog(start, b) && HeldInOp(bufs, ops, b)
  }

  /** What is neither pinned nor dirty is on disk. */
  ghost predicate Clean(disk: Disk, expected: Disk, pins: set<int>, dirty: set<int>) {
    && |expected| == |disk|
    && forall b {:trigger expected[b]} {:trigger disk[b]} ::
         0 <= b < |disk| && b !in pins && b !in dirty ==> expected[b] == disk[b]
  }

  /** The room reserved by the running operations and not yet used. */
  ghost function Reserved(ops: map<Pid, set<int>>): int
    decreases |ops|
  {
    if ops == map[] then 0
    else
      var p :| p in ops;
      assert |ops - {p}| < |ops| by { assert (ops - {p}).Keys == ops.Keys - {p}; }
      MAXOPBLOCKS - |ops[p]| + Reserved(ops - {p})
  }

  ghost predicate AllLogged(bs: set<int>, blocks: seq<int>) {
    forall b {:trigger b in bs} :: b in bs ==> b in blocks
  }

  /** The log never outgrows its reservation, commits alone, and leaves nobody asleep without a waker. */
  ghost predicate LogInv(blocks: seq<int>, outstanding: int, ops: map<Pid, set<int>>, asleep: set<Pid>,
                         dirty: set<int>, phase: Phase)
  {
    && outstanding == |ops|
    && (forall p :: p in ops ==> |ops[p]| < MAXOPBLOCKS)
    && (forall p :: p in ops ==> AllLogged(ops[p], blocks))
    && |blocks| + Reserved(ops) <= LOGBLOCKS
    && (phase.Committing? ==> outstanding == 0)
    && (phase.Recovering? ==> outstanding == 0 && asleep == {} && dirty == {})
    && (phase.Idle? && outstanding == 0 ==> blocks == [])
    && (asleep != {} ==> outstanding > 0 || phase.Committing?)
  }

  ghost predicate IdleInv(start: nat, disk: Disk, blocks: seq<int>, durable: Disk) {
    Distinct(blocks) && Sound(disk, start) && GetHead(disk[start]) == [] && SameHome(durable, disk, start)
  }

  ghost predicate CommitInv(start: nat, disk: Disk, blocks: seq<int>, flat: Disk, durable: Disk,
                            base: Disk, tx: Transaction, k: nat)
  {
    && |base| == |disk| && Sound(base, start) && GetHead(base[start]) == []
    && |tx.data| == |tx.blocks| && k <= 2 * |tx.blocks| + 2
    && blocks == (if k == 2 * |tx.blocks| + 2 then [] else tx.blocks)
    && if tx.blocks == [] then k == 0 && disk == base && SameHome(durable, base, start)
       else
         && Committable(base, start, tx)
         && disk == CommitState(base, start, tx, k)
         && SameHome(flat, Apply(base, tx), start)
         && SameHome(durable, if k <= |tx.blocks| then base else Apply(base, tx), start)
  }

  ghost predicate RecoverInv(start: nat, disk: Disk, blocks: seq<int>, flat: Disk, durable: Disk,
                             base: Disk, started: bool, k: nat)
  {
    && |base| == |disk| && Sound(base, start) && k <= |GetHead(base[start])| + 1
    && disk == RecoveryState(base, start, k)
    && blocks == (if started && k <= |GetHead(base[start])| then GetHead(base[start]) else [])
    && (!started ==> k == 0)
    && SameHome(durable, Recovered(base, start), start)
    && SameHome(flat, durable, start)
  }

  /** The disk is where the log protocol says it is, and recovering it would give the durable contents. */
  ghost predicate PhaseInv(start: nat, disk: Disk, blocks: seq<int>, flat: Disk, durable: Disk, phase: Phase) {
    match phase
    case Idle => IdleInv(start, disk, blocks, durable)
    case Committing(_, base, tx, k) => CommitInv(start, disk, blocks, flat, durable, base, tx, k)
    case Recovering(_, base, started, k) => RecoverInv(start, disk, blocks, flat, durable, base, started, k)
  }

  /** What holds of the cache and the log's bookkeeping, wherever the log protocol is. */
  ghost predicate CacheInv(s: State) {
    && Shape(s)
    && Unique(s.bufs)
    && RefsInv(s.bufs, Pins(s))
    && DataInv(s.bufs, Expected(s))
    && PinsInv(s.bufs, Pins(s))
    && DirtyInv(s.start, s.bufs, s.ops, s.dirty)
    && Clean(s.disk, Expected(s), Pins(s), s.dirty)
    && LogInv(s.blocks, s.outstanding, s.ops, s.asleep, s.dirty, s.phase)
  }

  ghost predicate Inv(s: State) {
    CacheInv(s) && PhaseInv(s.start, s.disk, s.blocks, s.flat, s.durable, s.phase)
  }
}
