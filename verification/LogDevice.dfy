/** The loops of commit and recovery, writing the disk one block at a time through the buffer cache. */
module LogDevice {
  import opened RedoLog

  /** What a reader of block `b` gets, given the disk and the cached buffers. */
  function Lookup(disk: Disk, cache: map<int, Block>, b: int): Block
    requires 0 <= b < |disk|
  {
    if b in cache then cache[b] else disk[b]
  }

  /** The blocks hold the data, wherever it is. */
  ghost predicate Holds(disk: Disk, cache: map<int, Block>, blocks: seq<int>, data: seq<Block>) {
    && |data| == |blocks|
    && forall i :: 0 <= i < |blocks| ==> 0 <= blocks[i] < |disk| && Lookup(disk, cache, blocks[i]) == data[i]
  }

  /** Cached log blocks are as on disk. */
  ghost predicate Coherent(disk: Disk, cache: map<int, Block>, start: nat) {
    && start + LOGBLOCKS < |disk|
    && (forall b :: 0 <= b < |disk| ==> |disk[b]| == WORDS)
    && (forall b :: b in cache && 0 <= b < |disk| ==> |cache[b]| == WORDS)
    && (forall b :: b in cache && InLog(start, b) ==> cache[b] == disk[b])
  }

  /** Copying a block keeps log blocks coherent, and keeps what every other block holds. */
  lemma CopyKeeps(disk: Disk, cache: map<int, Block>, start: nat, src: int, dst: int, blocks: seq<int>,
                  data: seq<Block>)
    requires Coherent(disk, cache, start) && 0 <= src < |disk| && 0 <= dst < |disk|
    ensures var from := Lookup(disk, cache, src);
            var disk', cache' := disk[dst := from], cache[src := from][dst := from];
            && Coherent(disk', cache', start)
            && (dst !in blocks && Holds(disk, cache, blocks, data) ==> Holds(disk', cache', blocks, data))
  {
  }

  lemma AppendCommit(h: seq<Disk>, d: Disk, start: nat, tx: Transaction)
    requires Committable(d, start, tx)
    ensures HomeBlocks(Logged(d, start, tx), start, tx.blocks)
    ensures var e := Logged(d, start, tx);
            var f := Install(e, start, tx.blocks, |tx.blocks|);
            && h + LogWrites(d, start, tx.data, |tx.blocks|) + [e] + InstallWrites(e, start, tx.blocks, |tx.blocks|)
               + [f[start := PutHead(e[start], [])]]
               == h + CommitWrites(d, start, tx)
            && f[start := PutHead(e[start], [])] == CommitState(d, start, tx, 2 * |tx.blocks| + 2)
  {
    LoggedSound(d, start, tx);
  }

  class Log {
    const start: nat
    var disk: Disk
    /** Every state the disk has been in, the current one last. */
    ghost var history: seq<Disk>
    /** The blocks of the in-memory header. */
    var blocks: seq<int>
    /** Buffers in the cache, by block number. */
    var cache: map<int, Block>

    method Bread(b: int) returns (data: Block)
      requires 0 <= b < |disk|
      modifies this`cache
      ensures data == Lookup(disk, old(cache), b) && cache == old(cache)[b := data]
    {
      if b !in cache {
        cache := cache[b := disk[b]];
      }
      data := cache[b];
      assert cache == old(cache)[b := data];
    }

    method Bwrite(b: int, data: Block)
      requires 0 <= b < |disk|
      modifies this`cache, this`disk, this`history
      ensures disk == old(disk)[b := data] && cache == old(cache)[b := data] && history == old(history) + [disk]
    {
      cache := cache[b := data];
      disk := disk[b := data];
      history := history + [disk];
    }

    /** Reads both blocks, copies one buffer into the other and writes it. */
    method CopyBlock(src: int, dst: int)
      requires 0 <= src < |disk| && 0 <= dst < |disk|
      modifies this`cache, this`disk, this`history
      ensures var from := Lookup(old(disk), old(cache), src);
              disk == old(disk)[dst := from] && cache == old(cache)[src := from][dst := from]
      ensures history == old(history) + [disk]
    {
      var from := Bread(src);
      var to := Bread(dst);
      Bwrite(dst, from);
      assert cache == old(cache)[src := from][dst := from];
    }

    /** Copies each logged block from the cache to the log. */
    method WriteLog(ghost data: seq<Block>)
      requires Coherent(disk, cache, start) && HomeBlocks(disk, start, blocks) && Holds(disk, cache, blocks, data)
      modifies this`cache, this`disk, this`history
      ensures Coherent(disk, cache, start)
      ensures disk == LogWritten(old(disk), start, data, |blocks|)
      ensures history == old(history) + LogWrites(old(disk), start, data, |blocks|)
    {
      for tail := 0 to |blocks|
        invariant |disk| == |old(disk)| && Coherent(disk, cache, start) && Holds(disk, cache, blocks, data)
        invariant disk == LogWritten(old(disk), start, data, tail)
        invariant history == old(history) + LogWrites(old(disk), start, data, tail)
      {
        CopyKeeps(disk, cache, start, blocks[tail], start + tail + 1, blocks, data);
        CopyBlock(blocks[tail], start + tail + 1);
      }
    }

    /** Writes the in-memory header over the one on disk. */
    method WriteHead()
      requires Coherent(disk, cache, start) && |blocks| <= LOGBLOCKS
      modifies this`cache, this`disk, this`history
      ensures Coherent(disk, cache, start)
      ensures disk == old(disk)[start := PutHead(old(disk)[start], blocks)] && history == old(history) + [disk]
    {
      var head := Bread(start);
      Bwrite(start, PutHead(head, blocks));
    }

    /** Copies each logged block from the log to its home. */
    method InstallTrans()
      requires Coherent(disk, cache, start) && HomeBlocks(disk, start, blocks)
      modifies this`cache, this`disk, this`history
      ensures Coherent(disk, cache, start)
      ensures disk == Install(old(disk), start, blocks, |blocks|)
      ensures history == old(history) + InstallWrites(old(disk), start, blocks, |blocks|)
    {
      for tail := 0 to |blocks|
        invariant |disk| == |old(disk)| && Coherent(disk, cache, start)
        invariant disk == Install(old(disk), start, blocks, tail)
        invariant history == old(history) + InstallWrites(old(disk), start, blocks, tail)
      {
        CopyKeeps(disk, cache, start, start + tail + 1, blocks[tail], [], []);
        CopyBlock(start + tail + 1, blocks[tail]);
      }
    }

    /** The parts of a commit up to the header write. */
    method LogTransaction(ghost tx: Transaction)
      requires Coherent(disk, cache, start) && Committable(disk, start, tx)
      requires blocks == tx.blocks && Holds(disk, cache, blocks, tx.data)
      modifies this`cache, this`disk, this`history
      ensures Coherent(disk, cache, start)
      ensures disk == Logged(old(disk), start, tx)
      ensures history == old(history) + LogWrites(old(disk), start, tx.data, |tx.blocks|) + [disk]
    {
      WriteLog(tx.data);
      LogWrittenAt(old(disk), start, tx.data, |tx.blocks|);
      WriteHead();
    }

    /** Installs what the header names, then erases the transaction from the log. */
    method InstallAndClear()
      requires Coherent(disk, cache, start) && HomeBlocks(disk, start, blocks)
      modifies this
      ensures Coherent(disk, cache, start) && blocks == []
      ensures var e := Install(old(disk), start, old(blocks), |old(blocks)|);
              disk == e[start := PutHead(e[start], [])]
      ensures history == old(history) + InstallWrites(old(disk), start, old(blocks), |old(blocks)|) + [disk]
    {
      InstallTrans();
      blocks := [];
      WriteHead();
    }

    /** The four parts of a commit make exactly the writes of a commit, in that order. */
    method Commit(ghost tx: Transaction)
      requires Coherent(disk, cache, start) && blocks == tx.blocks && Holds(disk, cache, blocks, tx.data)
      requires blocks != [] ==> Committable(disk, start, tx)
      modifies this
      ensures Coherent(disk, cache, start) && blocks == []
      ensures tx.blocks == [] ==> disk == old(disk) && history == old(history)
      ensures tx.blocks != [] ==> disk == CommitState(old(disk), start, tx, 2 * |tx.blocks| + 2)
      ensures tx.blocks != [] ==> history == old(history) + CommitWrites(old(disk), start, tx)
    {
      if blocks != [] {
        LogTransaction(tx);
        LoggedSound(old(disk), start, tx);
        InstallAndClear();
        AppendCommit(old(history), old(disk), start, tx);
      }
    }

    /** Restart after a stop: the cache is empty, the header is read back and the log is replayed. */
    method RecoverFromLog()
      requires Sound(disk, start) && cache == map[]
      modifies this
      ensures Coherent(disk, cache, start) && blocks == []
      ensures disk == RecoveryState(old(disk), start, |GetHead(old(disk)[start])| + 1)
      ensures history == old(history) + RecoveryWrites(old(disk), start)
    {
      var head := Bread(start);
      blocks := GetHead(head);
      InstallAndClear();
    }
  }
}
