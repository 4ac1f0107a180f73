/** How many blocks a commit can pin, and when the cache still has a buffer for it. */
module LogBuffers {
  import opened Prelude
  import opened RedoLog
  import opened LogCache
  import opened LogCacheProof
  import opened LogCacheRuns

  // ----- How many blocks are logged -----

  /** What is logged and what the running operations may still log. */
  ghost function Load(blocks: seq<int>, ops: map<Pid, set<int>>): int {
    |blocks| + Reserved(ops) - |ops|
  }

  /** Outside recovery the log stays two blocks short of its capacity. */
  ghost predicate Room(s: State) {
    !s.phase.Recovering? ==> Load(s.blocks, s.ops) <= LOGBLOCKS - 2
  }

  lemma LoadJoins(blocks: seq<int>, outstanding: int, ops: map<Pid, set<int>>, asleep: set<Pid>, dirty: set<int>,
                  p: Pid)
    requires LogInv(blocks, outstanding, ops, asleep, dirty, Idle) && p !in ops
    requires |blocks| + (outstanding + 1) * MAXOPBLOCKS <= LOGBLOCKS
    ensures Load(blocks, ops[p := {}]) <= LOGBLOCKS - 2
  {
    ReservedBound(ops);
    ReservedAdd(ops, p, {});
    assert ops - {p} == ops;
    assert ops[p := {}].Keys == ops.Keys + {p};
    assert |ops[p := {}]| == |ops| + 1;
  }

  lemma LoadLogs(blocks: seq<int>, outstanding: int, ops: map<Pid, set<int>>, asleep: set<Pid>, dirty: set<int>,
                 p: Pid, b: int)
    requires LogInv(blocks, outstanding, ops, asleep, dirty, Idle) && p in ops
    ensures Load(if b in blocks then blocks else blocks + [b], ops[p := ops[p] + {b}]) <= Load(blocks, ops)
  {
    ReservedRemove(ops, p);
    ReservedAdd(ops, p, ops[p] + {b});
    assert ops[p := ops[p] + {b}].Keys == ops.Keys;
    assert |ops[p := ops[p] + {b}]| == |ops|;
    assert b in ops[p] ==> ops[p] + {b} == ops[p];
  }

  lemma LoadLeaves(blocks: seq<int>, outstanding: int, ops: map<Pid, set<int>>, asleep: set<Pid>, dirty: set<int>,
                   p: Pid)
    requires LogInv(blocks, outstanding, ops, asleep, dirty, Idle) && p in ops
    ensures Load(blocks, ops - {p}) <= Load(blocks, ops)
  {
    ReservedRemove(ops, p);
    assert (ops - {p}).Keys == ops.Keys - {p};
    assert |ops - {p}| == |ops| - 1;
  }

  lemma OpRoom(s: State, a: Action)
    requires Inv(s) && Room(s) && Enabled(s, a) && (a.LogWrite? || a.BeginOp? || a.EndOp?)
    ensures Room(Do(s, a))
  {
    if a.BeginOp? {
      if s.phase.Idle? && |s.blocks| + (s.outstanding + 1) * MAXOPBLOCKS <= LOGBLOCKS {
        LoadJoins(s.blocks, s.outstanding, s.ops, s.asleep, s.dirty, a.p);
      }
    } else {
      InOpIsIdle(s, a.p);
      if a.LogWrite? {
        LoadLogs(s.blocks, s.outstanding, s.ops, s.asleep, s.dirty, a.p, s.bufs[a.i].block.value);
      } else {
        LoadLeaves(s.blocks, s.outstanding, s.ops, s.asleep, s.dirty, a.p);
      }
    }
  }

  /** Every other step leaves the operations alone, and the log as it is or empty. */
  lemma OtherRoom(s: State, a: Action)
    requires Inv(s) && Room(s) && Enabled(s, a) && !a.LogWrite? && !a.BeginOp? && !a.EndOp?
    ensures Room(Do(s, a))
  {
    if a.RecoverDone? {
      assert s.ops.Keys == {};
      assert s.ops == map[] && Reserved(map[]) == 0;
    }
  }

  lemma NextRoom(s: State, a: Action, s': State)
    requires Inv(s) && Room(s) && Next(s, a, s')
    ensures Room(s')
  {
    if a.LogWrite? || a.BeginOp? || a.EndOp? {
      OpRoom(s, a);
    } else {
      OtherRoom(s, a);
    }
  }

  lemma {:induction false} RunRoom(states: seq<State>, acts: seq<Action>, k: nat)
    requires IsRun(states, acts) && k < |states|
    ensures Room(states[k])
    decreases k
  {
    if k > 0 {
      RunRoom(states, acts, k - 1);
      RunInv(states, acts, k - 1);
      assert StepAt(states, acts, k - 1);
      NextRoom(states[k - 1], acts[k - 1], states[k]);
    }
  }

  lemma {:induction false} ElementsSize(xs: seq<int>)
    ensures |Elements(xs)| <= |xs|
  {
    if xs != [] {
      var n := |xs| - 1;
      ElementsSize(xs[..n]);
      assert xs == xs[..n] + [xs[n]];
      assert Elements(xs) == Elements(xs[..n]) + {xs[n]};
    }
  }

  /** In every state of every run, at least two of the buffers have no pin. */
  lemma PinsBounded(states: seq<State>, acts: seq<Action>, k: nat)
    requires IsRun(states, acts) && k < |states|
    ensures |Pins(states[k])| <= LOGBLOCKS - 2 == NBUF - 2
  {
    var s := states[k];
    RunInv(states, acts, k);
    RunRoom(states, acts, k);
    ReservedBound(s.ops);
    ElementsSize(PinnedBlocks(s.phase, s.blocks));
  }

  // ----- Which buffers are taken -----

  predicate IsPinned(buf: Buf, pins: set<int>) {
    buf.block.Some? && buf.block.value in pins
  }

  /** How many of the buffers somebody refers to. */
  function BusyCount(bufs: seq<Buf>): nat {
    if bufs == [] then 0
    else BusyCount(bufs[..|bufs| - 1]) + if bufs[|bufs| - 1].refcnt > 0 then 1 else 0
  }

  function PinnedCount(bufs: seq<Buf>, pins: set<int>): nat {
    if bufs == [] then 0
    else PinnedCount(bufs[..|bufs| - 1], pins) + if IsPinned(bufs[|bufs| - 1], pins) then 1 else 0
  }

  /** How many of the buffers are held by processes and not pinned. */
  function HeldCount(bufs: seq<Buf>, pins: set<int>): nat {
    if bufs == [] then 0
    else
      var buf := bufs[|bufs| - 1];
      HeldCount(bufs[..|bufs| - 1], pins) + if buf.users != {} && !IsPinned(buf, pins) then 1 else 0
  }

  /** A buffer is taken if it is pinned or held. */
  lemma {:induction false} BusyParts(bufs: seq<Buf>, pins: set<int>)
    requires RefsInv(bufs, pins)
    ensures BusyCount(bufs) == PinnedCount(bufs, pins) + HeldCount(bufs, pins)
  {
    if bufs != [] {
      var n := |bufs| - 1;
      forall i | 0 <= i < n ensures RefsOk(bufs[..n][i], pins) {
        assert RefsOk(bufs[i], pins);
      }
      BusyParts(bufs[..n], pins);
      assert RefsOk(bufs[n], pins);
    }
  }

  lemma {:induction false} AllBusy(bufs: seq<Buf>)
    ensures BusyCount(bufs) <= |bufs|
    ensures BusyCount(bufs) == |bufs| <==> forall i :: 0 <= i < |bufs| ==> bufs[i].refcnt > 0
  {
    if bufs != [] {
      var n := |bufs| - 1;
      AllBusy(bufs[..n]);
      assert forall i :: 0 <= i < n ==> bufs[..n][i] == bufs[i];
    }
  }

  /** The pinned blocks that the buffers hold. */
  function PinnedIn(bufs: seq<Buf>, pins: set<int>): set<int> {
    if bufs == [] then {}
    else
      var buf := bufs[|bufs| - 1];
      PinnedIn(bufs[..|bufs| - 1], pins) + if IsPinned(buf, pins) then {buf.block.value as int} else {}
  }

  lemma {:induction false} PinnedFound(bufs: seq<Buf>, pins: set<int>, i: nat)
    requires i < |bufs| && IsPinned(bufs[i], pins)
    ensures bufs[i].block.value in PinnedIn(bufs, pins)
    decreases |bufs|
  {
    var n := |bufs| - 1;
    if i < n {
      PinnedFound(bufs[..n], pins, i);
    }
  }

  lemma {:induction false} PinnedWhere(bufs: seq<Buf>, pins: set<int>, b: int) returns (i: nat)
    requires b in PinnedIn(bufs, pins)
    ensures i < |bufs| && IsPinned(bufs[i], pins) && bufs[i].block.value == b
    decreases |bufs|
  {
    var n := |bufs| - 1;
    if IsPinned(bufs[n], pins) && bufs[n].block.value == b {
      i := n;
    } else {
      i := PinnedWhere(bufs[..n], pins, b);
    }
  }

  lemma UniquePrefix(bufs: seq<Buf>, n: nat)
    requires Unique(bufs) && n <= |bufs|
    ensures Unique(bufs[..n])
  {
    forall i: nat, j: nat | i < j < n ensures Apart(bufs[..n], i, j) {
      assert Apart(bufs, i, j);
    }
  }

  lemma NewlyPinned(bufs: seq<Buf>, pins: set<int>, n: nat)
    requires Unique(bufs) && n < |bufs| && IsPinned(bufs[n], pins)
    ensures bufs[n].block.value !in PinnedIn(bufs[..n], pins)
  {
    if bufs[n].block.value in PinnedIn(bufs[..n], pins) {
      var i := PinnedWhere(bufs[..n], pins, bufs[n].block.value);
      OneBuffer(bufs, n, i);
    }
  }

  lemma {:induction false} PinnedSizes(bufs: seq<Buf>, pins: set<int>)
    requires Unique(bufs)
    ensures PinnedCount(bufs, pins) == |PinnedIn(bufs, pins)|
    decreases |bufs|
  {
    if bufs != [] {
      var n := |bufs| - 1;
      UniquePrefix(bufs, n);
      PinnedSizes(bufs[..n], pins);
      if IsPinned(bufs[n], pins) {
        NewlyPinned(bufs, pins, n);
      }
    }
  }

  /** There are as many pinned buffers as pinned blocks. */
  lemma PinsCounted(bufs: seq<Buf>, pins: set<int>)
    requires Unique(bufs) && PinsInv(bufs, pins)
    ensures PinnedCount(bufs, pins) == |pins|
  {
    PinnedSizes(bufs, pins);
    forall b: int ensures b in pins <==> b in PinnedIn(bufs, pins) {
      if b in pins {
        assert Cached(bufs, b);
        var i: nat :| HoldsAt(bufs, i, b);
        PinnedFound(bufs, pins, i);
      }
      if b in PinnedIn(bufs, pins) {
        var i := PinnedWhere(bufs, pins, b);
      }
    }
    assert pins == PinnedIn(bufs, pins);
  }

  lemma VictimExactly(bufs: seq<Buf>, lru: seq<nat>, size: nat)
    requires BufsShape(bufs, lru, size)
    ensures Victim(bufs, lru).Some? <==> BusyCount(bufs) < NBUF
  {
    AllBusy(bufs);
    if Victim(bufs, lru).None? {
      forall i: nat | i < NBUF ensures bufs[i].refcnt > 0 {
        assert i in lru;
      }
    }
  }

  /** A block that is not cached can be had if and only if the pinned buffers and those held beside them leave one of
      the NBUF buffers over. */
  lemma BgetExactly(s: State, p: Pid, b: nat)
    requires Inv(s) && b < |s.disk| && FindCached(s.bufs, b) == None && (s.phase.Recovering? ==> p == s.phase.p)
    ensures Enabled(s, Bget(p, b)) <==> |Pins(s)| + HeldCount(s.bufs, Pins(s)) < NBUF
  {
    BusyParts(s.bufs, Pins(s));
    PinsCounted(s.bufs, Pins(s));
    VictimExactly(s.bufs, s.lru, |s.disk|);
  }

  /** In every run, whoever asks for a block gets a buffer while at most one buffer beside the pinned ones is held. */
  lemma OneHeldIsHarmless(states: seq<State>, acts: seq<Action>, k: nat, p: Pid, b: nat)
    requires IsRun(states, acts) && k < |states| && b < |states[k].disk| && FindCached(states[k].bufs, b) == None
    requires !states[k].phase.Recovering? && HeldCount(states[k].bufs, Pins(states[k])) <= 1
    ensures Inv(states[k]) && Enabled(states[k], Bget(p, b))
  {
    RunInv(states, acts, k);
    PinsBounded(states, acts, k);
    BgetExactly(states[k], p, b);
  }
}
