/**
  The redo log on disk: the writes of a commit and of recovery in the order in which they reach the disk, and
  what recovery makes of the disk when the machine stops between any two of them.
 */
module RedoLog {

  const LOGBLOCKS: nat := 30
  const WORDS: nat := 256

  /** A block as words; the header block holds a count and that many block numbers. */
  type Block = seq<int>
  type Disk = seq<Block>

  // ----- The header block -----

  predicate HeadOk(b: Block) {
    |b| == WORDS && 0 <= b[0] <= LOGBLOCKS
  }

  function GetHead(b: Block): seq<int>
    requires HeadOk(b)
  {
    b[1..1 + b[0]]
  }

  /** Writing a header leaves the words after the last block number as they were. */
  function PutHead(b: Block, blocks: seq<int>): Block
    requires |b| == WORDS && |blocks| <= LOGBLOCKS
  {
    [|blocks|] + blocks + b[1 + |blocks|..]
  }

  lemma HeadRoundTrip(b: Block, blocks: seq<int>)
    requires |b| == WORDS && |blocks| <= LOGBLOCKS
    ensures HeadOk(PutHead(b, blocks)) && GetHead(PutHead(b, blocks)) == blocks
  {
  }

  // ----- The disk -----

  predicate InLog(start: nat, b: int) {
    start <= b <= start + LOGBLOCKS
  }

  /** Home blocks are those outside the header and the log. */
  predicate HomeBlocks(d: Disk, start: nat, blocks: seq<int>) {
    |blocks| <= LOGBLOCKS && forall i :: 0 <= i < |blocks| ==> 0 <= blocks[i] < |d| && !InLog(start, blocks[i])
  }

  /** A disk that recovery can start from. */
  predicate Sound(d: Disk, start: nat) {
    && start + LOGBLOCKS < |d|
    && (forall i :: 0 <= i < |d| ==> |d[i]| == WORDS)
    && HeadOk(d[start])
    && HomeBlocks(d, start, GetHead(d[start]))
  }

  predicate Differ(blocks: seq<int>, i: nat, j: nat) {
    i < |blocks| && j < |blocks| && blocks[i] != blocks[j]
  }

  ghost predicate Distinct(blocks: seq<int>) {
    forall i: nat, j: nat {:trigger Differ(blocks, i, j)} :: i < j < |blocks| ==> Differ(blocks, i, j)
  }

  ghost predicate SameHome(d: Disk, e: Disk, start: nat) {
    |d| == |e| && forall b {:trigger d[b]} {:trigger e[b]} :: 0 <= b < |d| && !InLog(start, b) ==> d[b] == e[b]
  }

  /** The first `k` logged blocks copied to their homes, in order. */
  function Install(d: Disk, start: nat, blocks: seq<int>, k: nat): (r: Disk)
    requires k <= |blocks| && HomeBlocks(d, start, blocks) && start + LOGBLOCKS < |d|
    ensures |r| == |d|
    ensures forall b :: start <= b <= start + LOGBLOCKS ==> r[b] == d[b]
  {
    if k == 0 then d else Install(d, start, blocks, k - 1)[blocks[k - 1] := d[start + k]]
  }

  /** What recovery makes of a disk: every block that the header names takes its contents from the log. */
  function Recovered(d: Disk, start: nat): Disk
    requires Sound(d, start)
  {
    var blocks := GetHead(d[start]);
    Install(d, start, blocks, |blocks|)
  }

  /** The last of the first `k` entries that names `x`, or -1. */
  function LastEntry(blocks: seq<int>, k: nat, x: int): (r: int)
    requires k <= |blocks|
    ensures -1 <= r < k
    ensures r >= 0 ==> blocks[r] == x
    ensures forall i :: r < i < k ==> blocks[i] != x
  {
    if k == 0 then -1 else if blocks[k - 1] == x then k - 1 else LastEntry(blocks, k - 1, x)
  }

  lemma {:induction false} InstallAt(d: Disk, start: nat, blocks: seq<int>, k: nat, x: nat)
    requires k <= |blocks| && HomeBlocks(d, start, blocks) && start + LOGBLOCKS < |d| && x < |d|
    ensures Install(d, start, blocks, k)[x] ==
            (if LastEntry(blocks, k, x) >= 0 then d[start + 1 + LastEntry(blocks, k, x)] else d[x])
  {
    if k > 0 {
      InstallAt(d, start, blocks, k - 1, x);
    }
  }

  /** Installing again over a partly installed disk gives the fully installed one. */
  lemma InstallAgain(d: Disk, start: nat, blocks: seq<int>, k: nat)
    requires k <= |blocks| && HomeBlocks(d, start, blocks) && start + LOGBLOCKS < |d|
    ensures Install(Install(d, start, blocks, k), start, blocks, |blocks|) == Install(d, start, blocks, |blocks|)
  {
    var e := Install(d, start, blocks, k);
    var n := |blocks|;
    forall x: nat | x < |d| ensures Install(e, start, blocks, n)[x] == Install(d, start, blocks, n)[x] {
      InstallAt(d, start, blocks, k, x);
      InstallAt(d, start, blocks, n, x);
      InstallAt(e, start, blocks, n, x);
    }
  }

  // ----- The writes of recovery -----

  /** The disk after the first `k` writes of recovery: the installs, then the cleared header. */
  function RecoveryState(d: Disk, start: nat, k: nat): Disk
    requires Sound(d, start) && k <= |GetHead(d[start])| + 1
  {
    var blocks := GetHead(d[start]);
    if k <= |blocks| then Install(d, start, blocks, k)
    else Recovered(d, start)[start := PutHead(d[start], [])]
  }

  lemma {:induction false} InstallSound(d: Disk, start: nat, blocks: seq<int>, k: nat)
    requires k <= |blocks| && HomeBlocks(d, start, blocks) && start + LOGBLOCKS < |d|
    requires forall i :: 0 <= i < |d| ==> |d[i]| == WORDS
    ensures forall i :: 0 <= i < |d| ==> |Install(d, start, blocks, k)[i]| == WORDS
  {
    forall i: nat | i < |d| ensures |Install(d, start, blocks, k)[i]| == WORDS {
      InstallAt(d, start, blocks, k, i);
    }
  }

  /** Recovery cut short after any write leaves a disk whose recovery has the same home blocks. */
  lemma RecoveryCrash(d: Disk, start: nat, k: nat)
    requires Sound(d, start) && k <= |GetHead(d[start])| + 1
    ensures Sound(RecoveryState(d, start, k), start)
    ensures SameHome(Recovered(RecoveryState(d, start, k), start), Recovered(d, start), start)
  {
    var blocks := GetHead(d[start]);
    if k <= |blocks| {
      InstallSound(d, start, blocks, k);
      InstallAgain(d, start, blocks, k);
    } else {
      InstallSound(d, start, blocks, |blocks|);
      HeadRoundTrip(d[start], []);
    }
  }

  /** Recovery that completes leaves an empty log and the recovered home blocks. */
  lemma RecoveryCompletes(d: Disk, start: nat)
    requires Sound(d, start)
    ensures var e := RecoveryState(d, start, |GetHead(d[start])| + 1);
            Sound(e, start) && GetHead(e[start]) == [] && SameHome(e, Recovered(d, start), start)
  {
    RecoveryCrash(d, start, |GetHead(d[start])| + 1);
    HeadRoundTrip(d[start], []);
  }

  /** The disk after recovery was cut short again and again, each time after `cuts[i]` of its writes. */
  ghost function Interrupted(d: Disk, start: nat, cuts: seq<nat>): Disk
    requires Sound(d, start)
    decreases |cuts|
  {
    if cuts == [] then d
    else
      var n := |GetHead(d[start])| + 1;
      var k := if cuts[0] <= n then cuts[0] else n;
      RecoveryCrash(d, start, k);
      Interrupted(RecoveryState(d, start, k), start, cuts[1..])
  }

  /** However often recovery is cut short, recovery that then completes gives the same home blocks. */
  lemma {:induction false} RepeatedCrashes(d: Disk, start: nat, cuts: seq<nat>)
    requires Sound(d, start)
    ensures Sound(Interrupted(d, start, cuts), start)
    ensures SameHome(Recovered(Interrupted(d, start, cuts), start), Recovered(d, start), start)
    decreases |cuts|
  {
    if cuts != [] {
      var n := |GetHead(d[start])| + 1;
      var k := if cuts[0] <= n then cuts[0] else n;
      RecoveryCrash(d, start, k);
      RepeatedCrashes(RecoveryState(d, start, k), start, cuts[1..]);
    }
  }

  // ----- The writes of a commit -----

  /** The first `k` log blocks overwritten with the data to commit. */
  function LogWritten(d: Disk, start: nat, data: seq<Block>, k: nat): (r: Disk)
    requires k <= |data| <= LOGBLOCKS && start + LOGBLOCKS < |d|
    ensures |r| == |d|
  {
    if k == 0 then d else LogWritten(d, start, data, k - 1)[start + k := data[k - 1]]
  }

  lemma {:induction false} LogWrittenAt(d: Disk, start: nat, data: seq<Block>, k: nat)
    requires k <= |data| <= LOGBLOCKS && start + LOGBLOCKS < |d|
    ensures forall b :: 0 <= b < |d| ==>
              LogWritten(d, start, data, k)[b] == if start < b <= start + k then data[b - start - 1] else d[b]
  {
    if k > 0 {
      LogWrittenAt(d, start, data, k - 1);
    }
  }

  /** A transaction: which home blocks it changes, and to what. */
  datatype Transaction = Transaction(blocks: seq<int>, data: seq<Block>)

  ghost predicate Committable(d: Disk, start: nat, tx: Transaction) {
    && Sound(d, start) && GetHead(d[start]) == []
    && tx.blocks != [] && |tx.data| == |tx.blocks| && HomeBlocks(d, start, tx.blocks)
    && (forall i :: 0 <= i < |tx.data| ==> |tx.data[i]| == WORDS)
    && Distinct(tx.blocks)
  }

  function Logged(d: Disk, start: nat, tx: Transaction): (r: Disk)
    requires start + LOGBLOCKS < |d| && |d[start]| == WORDS && |tx.data| == |tx.blocks| <= LOGBLOCKS
    ensures |r| == |d|
  {
    LogWritten(d, start, tx.data, |tx.data|)[start := PutHead(d[start], tx.blocks)]
  }

  /** The disk after the first `k` writes of a commit: the log, the header, the installs, the cleared header. */
  ghost function CommitState(d: Disk, start: nat, tx: Transaction, k: nat): Disk
    requires Committable(d, start, tx) && k <= 2 * |tx.blocks| + 2
  {
    var n := |tx.blocks|;
    if k <= n then LogWritten(d, start, tx.data, k)
    else if k <= 2 * n + 1 then Install(Logged(d, start, tx), start, tx.blocks, k - n - 1)
    else
      var e := Install(Logged(d, start, tx), start, tx.blocks, n);
      e[start := PutHead(e[start], [])]
  }

  /** The transaction applied to the home blocks in one go. */
  function Applied(d: Disk, tx: Transaction, k: nat): (r: Disk)
    requires k <= |tx.blocks| == |tx.data| && forall i :: 0 <= i < |tx.blocks| ==> 0 <= tx.blocks[i] < |d|
    ensures |r| == |d|
  {
    if k == 0 then d else Applied(d, tx, k - 1)[tx.blocks[k - 1] := tx.data[k - 1]]
  }

  function Apply(d: Disk, tx: Transaction): Disk
    requires |tx.blocks| == |tx.data| && forall i :: 0 <= i < |tx.blocks| ==> 0 <= tx.blocks[i] < |d|
  {
    Applied(d, tx, |tx.blocks|)
  }

  lemma {:induction false} InstallApplies(d: Disk, start: nat, tx: Transaction, k: nat)
    requires Committable(d, start, tx) && k <= |tx.blocks|
    ensures SameHome(Install(Logged(d, start, tx), start, tx.blocks, k), Applied(d, tx, k), start)
  {
    LogWrittenAt(d, start, tx.data, |tx.data|);
    if k > 0 {
      InstallApplies(d, start, tx, k - 1);
      assert Logged(d, start, tx)[start + k] == tx.data[k - 1];
    }
  }

  lemma LoggedSound(d: Disk, start: nat, tx: Transaction)
    requires Committable(d, start, tx)
    ensures Sound(Logged(d, start, tx), start)
    ensures GetHead(Logged(d, start, tx)[start]) == tx.blocks
    ensures SameHome(Recovered(Logged(d, start, tx), start), Apply(d, tx), start)
  {
    HeadRoundTrip(d[start], tx.blocks);
    LogWrittenAt(d, start, tx.data, |tx.data|);
    InstallApplies(d, start, tx, |tx.blocks|);
  }

  /** Before the header write, recovery finds an empty log and changes nothing. */
  lemma CrashBeforeHeader(d: Disk, start: nat, tx: Transaction, k: nat)
    requires Committable(d, start, tx) && k <= |tx.blocks|
    ensures Sound(CommitState(d, start, tx, k), start)
    ensures SameHome(Recovered(CommitState(d, start, tx, k), start), d, start)
  {
    LogWrittenAt(d, start, tx.data, k);
  }

  /** From the header write on, recovery finds the transaction and installs it again. */
  lemma CrashAfterHeader(d: Disk, start: nat, tx: Transaction, k: nat)
    requires Committable(d, start, tx) && |tx.blocks| < k <= 2 * |tx.blocks| + 1
    ensures Sound(CommitState(d, start, tx, k), start)
    ensures SameHome(Recovered(CommitState(d, start, tx, k), start), Apply(d, tx), start)
  {
    var e, n := Logged(d, start, tx), k - |tx.blocks| - 1;
    LoggedSound(d, start, tx);
    InstallSound(e, start, tx.blocks, n);
    InstallAgain(e, start, tx.blocks, n);
  }

  /** Once the header is cleared, recovery finds an empty log and the transaction installed. */
  lemma CrashAfterClear(d: Disk, start: nat, tx: Transaction)
    requires Committable(d, start, tx)
    ensures var e := CommitState(d, start, tx, 2 * |tx.blocks| + 2);
            Sound(e, start) && SameHome(Recovered(e, start), Apply(d, tx), start)
  {
    var e, n := Logged(d, start, tx), |tx.blocks|;
    LoggedSound(d, start, tx);
    InstallSound(e, start, tx.blocks, n);
    HeadRoundTrip(Install(e, start, tx.blocks, n)[start], []);
  }

  /** Crash atomicity: a commit cut short after any of its writes recovers to the old home blocks, all of them,
      before the header write and to the new ones, all of them, from the header write on. */
  lemma CrashAtomicity(d: Disk, start: nat, tx: Transaction, k: nat)
    requires Committable(d, start, tx) && k <= 2 * |tx.blocks| + 2
    ensures Sound(CommitState(d, start, tx, k), start)
    ensures SameHome(Recovered(CommitState(d, start, tx, k), start),
                     if k <= |tx.blocks| then d else Apply(d, tx), start)
  {
    if k <= |tx.blocks| {
      CrashBeforeHeader(d, start, tx, k);
    } else if k <= 2 * |tx.blocks| + 1 {
      CrashAfterHeader(d, start, tx, k);
    } else {
      CrashAfterClear(d, start, tx);
    }
  }

  /** A commit that completes leaves an empty log and the transaction applied. */
  lemma CommitCompletes(d: Disk, start: nat, tx: Transaction)
    requires Committable(d, start, tx)
    ensures var e := CommitState(d, start, tx, 2 * |tx.blocks| + 2);
            Sound(e, start) && GetHead(e[start]) == [] && SameHome(e, Apply(d, tx), start)
  {
    CrashAtomicity(d, start, tx, 2 * |tx.blocks| + 2);
    var e := Install(Logged(d, start, tx), start, tx.blocks, |tx.blocks|);
    InstallApplies(d, start, tx, |tx.blocks|);
    LoggedSound(d, start, tx);
    HeadRoundTrip(e[start], []);
  }

  // ----- The writes as lists -----

  /** The disk after each of the first `k` log writes. */
  ghost function LogWrites(d: Disk, start: nat, data: seq<Block>, k: nat): (r: seq<Disk>)
    requires k <= |data| <= LOGBLOCKS && start + LOGBLOCKS < |d|
    ensures |r| == k && forall i :: 0 <= i < k ==> r[i] == LogWritten(d, start, data, i + 1)
  {
    if k == 0 then [] else LogWrites(d, start, data, k - 1) + [LogWritten(d, start, data, k)]
  }

  /** The disk after each of the first `k` installs. */
  ghost function InstallWrites(d: Disk, start: nat, blocks: seq<int>, k: nat): (r: seq<Disk>)
    requires k <= |blocks| && HomeBlocks(d, start, blocks) && start + LOGBLOCKS < |d|
    ensures |r| == k && forall i :: 0 <= i < k ==> r[i] == Install(d, start, blocks, i + 1)
  {
    if k == 0 then [] else InstallWrites(d, start, blocks, k - 1) + [Install(d, start, blocks, k)]
  }

  ghost function ClearHead(d: Disk, start: nat): Disk
    requires start < |d| && |d[start]| == WORDS
  {
    d[start := PutHead(d[start], [])]
  }

  ghost function CommitWrites(d: Disk, start: nat, tx: Transaction): seq<Disk>
    requires Committable(d, start, tx)
  {
    LoggedSound(d, start, tx);
    var n := |tx.blocks|;
    var e := Logged(d, start, tx);
    LogWrites(d, start, tx.data, n) + [e] + InstallWrites(e, start, tx.blocks, n)
    + [ClearHead(Install(e, start, tx.blocks, n), start)]
  }

  ghost function RecoveryWrites(d: Disk, start: nat): seq<Disk>
    requires Sound(d, start)
  {
    var blocks := GetHead(d[start]);
    InstallWrites(d, start, blocks, |blocks|) + [ClearHead(Recovered(d, start), start)]
  }

  /** The list of a commit's writes holds exactly its crash states. */
  lemma CommitWritesAt(d: Disk, start: nat, tx: Transaction, k: nat)
    requires Committable(d, start, tx) && 1 <= k <= 2 * |tx.blocks| + 2
    ensures |CommitWrites(d, start, tx)| == 2 * |tx.blocks| + 2
    ensures CommitWrites(d, start, tx)[k - 1] == CommitState(d, start, tx, k)
  {
    LoggedSound(d, start, tx);
    var n := |tx.blocks|;
    var e := Logged(d, start, tx);
    var a, b := LogWrites(d, start, tx.data, n), InstallWrites(e, start, tx.blocks, n);
    var last := ClearHead(Install(e, start, tx.blocks, n), start);
    var w := a + [e] + b + [last];
    assert k <= n ==> w[k - 1] == a[k - 1];
    assert n + 1 < k <= 2 * n + 1 ==> w[k - 1] == b[k - n - 2];
  }

  /** The list of a recovery's writes holds exactly its crash states. */
  lemma RecoveryWritesAt(d: Disk, start: nat, k: nat)
    requires Sound(d, start) && 1 <= k <= |GetHead(d[start])| + 1
    ensures |RecoveryWrites(d, start)| == |GetHead(d[start])| + 1
    ensures RecoveryWrites(d, start)[k - 1] == RecoveryState(d, start, k)
  {
  }

  // ----- Whole histories -----

  /** One transaction of a history: how many of its writes reach the disk before the machine stops (all of them
      if it does not stop), and where the recoveries that follow are cut short. */
  datatype Attempt = Attempt(tx: Transaction, writes: nat, cuts: seq<nat>)

  ghost predicate Attemptable(size: nat, start: nat, a: Attempt) {
    && a.writes <= 2 * |a.tx.blocks| + 2
    && a.tx.blocks != [] && |a.tx.data| == |a.tx.blocks| <= LOGBLOCKS
    && (forall i :: 0 <= i < |a.tx.blocks| ==> 0 <= a.tx.blocks[i] < size && !InLog(start, a.tx.blocks[i]))
    && (forall i :: 0 <= i < |a.tx.data| ==> |a.tx.data[i]| == WORDS)
    && (forall i, j :: 0 <= i < j < |a.tx.blocks| ==> a.tx.blocks[i] != a.tx.blocks[j])
  }

  /** The disk after an attempt: what its writes left, recovered by recoveries of which the last completes. */
  ghost function AfterAttempt(d: Disk, start: nat, a: Attempt): (r: Disk)
    requires Sound(d, start) && GetHead(d[start]) == [] && Attemptable(|d|, start, a)
    ensures |r| == |d| && Sound(r, start) && GetHead(r[start]) == []
    ensures SameHome(r, if a.writes <= |a.tx.blocks| then d else Apply(d, a.tx), start)
  {
    CrashAtomicity(d, start, a.tx, a.writes);
    var stopped := CommitState(d, start, a.tx, a.writes);
    RepeatedCrashes(stopped, start, a.cuts);
    var e := Interrupted(stopped, start, a.cuts);
    RecoveryCompletes(e, start);
    RecoveryState(e, start, |GetHead(e[start])| + 1)
  }

  ghost function AfterHistory(d: Disk, start: nat, h: seq<Attempt>): (r: Disk)
    requires Sound(d, start) && GetHead(d[start]) == [] && forall i :: 0 <= i < |h| ==> Attemptable(|d|, start, h[i])
    ensures |r| == |d|
    decreases |h|
  {
    if h == [] then d else AfterHistory(AfterAttempt(d, start, h[0]), start, h[1..])
  }

  /** The transactions whose header write happened, applied in order. */
  function CommittedEffect(d: Disk, h: seq<Attempt>): (r: Disk)
    requires forall i :: 0 <= i < |h| ==> |h[i].tx.blocks| == |h[i].tx.data|
    requires forall i, j :: 0 <= i < |h| && 0 <= j < |h[i].tx.blocks| ==> 0 <= h[i].tx.blocks[j] < |d|
    ensures |r| == |d|
    decreases |h|
  {
    if h == [] then d
    else CommittedEffect(if h[0].writes <= |h[0].tx.blocks| then d else Apply(d, h[0].tx), h[1..])
  }

  lemma {:induction false} AppliedHome(d: Disk, e: Disk, start: nat, tx: Transaction, k: nat)
    requires SameHome(d, e, start) && k <= |tx.blocks| == |tx.data|
    requires forall i :: 0 <= i < |tx.blocks| ==> 0 <= tx.blocks[i] < |d|
    ensures SameHome(Applied(d, tx, k), Applied(e, tx, k), start)
  {
    if k > 0 {
      AppliedHome(d, e, start, tx, k - 1);
    }
  }

  lemma {:induction false} CommittedEffectHome(d: Disk, e: Disk, start: nat, h: seq<Attempt>)
    requires SameHome(d, e, start)
    requires forall i :: 0 <= i < |h| ==> |h[i].tx.blocks| == |h[i].tx.data|
    requires forall i, j :: 0 <= i < |h| && 0 <= j < |h[i].tx.blocks| ==> 0 <= h[i].tx.blocks[j] < |d|
    ensures SameHome(CommittedEffect(d, h), CommittedEffect(e, h), start)
    decreases |h|
  {
    if h != [] {
      AppliedHome(d, e, start, h[0].tx, |h[0].tx.blocks|);
      var committed := h[0].writes > |h[0].tx.blocks|;
      CommittedEffectHome(if committed then Apply(d, h[0].tx) else d, if committed then Apply(e, h[0].tx) else e,
                          start, h[1..]);
    }
  }

  /** Over every history of transactions, each cut short anywhere and recovered through any number of further
      crashes, the home blocks are those of the committed transactions applied in order, and of no other. */
  lemma {:induction false} DurableHistory(d: Disk, start: nat, h: seq<Attempt>)
    requires Sound(d, start) && GetHead(d[start]) == [] && forall i :: 0 <= i < |h| ==> Attemptable(|d|, start, h[i])
    ensures SameHome(AfterHistory(d, start, h), CommittedEffect(d, h), start)
    decreases |h|
  {
    if h != [] {
      var e := AfterAttempt(d, start, h[0]);
      DurableHistory(e, start, h[1..]);
      var f := if h[0].writes <= |h[0].tx.blocks| then d else Apply(d, h[0].tx);
      CommittedEffectHome(e, f, start, h[1..]);
    }
  }
}
