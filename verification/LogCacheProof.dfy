/** Every kind of step of the log and cache machine keeps its invariant. */
module LogCacheProof {
  import opened Prelude
  import opened RedoLog
  import opened LogCache

  // ----- Reservations -----

  lemma {:induction false} ReservedRemove(ops: map<Pid, set<int>>, p: Pid)
    requires p in ops
    ensures Reserved(ops) == MAXOPBLOCKS - |ops[p]| + Reserved(ops - {p})
    decreases |ops|
  {
    var q :| q in ops && Reserved(ops) == MAXOPBLOCKS - |ops[q]| + Reserved(ops - {q});
    if q != p {
      assert (ops - {q}).Keys == ops.Keys - {q};
      ReservedRemove(ops - {q}, p);
      assert (ops - {p}).Keys == ops.Keys - {p};
      ReservedRemove(ops - {p}, q);
      assert ops - {q} - {p} == ops - {p} - {q};
    }
  }

  lemma ReservedAdd(ops: map<Pid, set<int>>, p: Pid, bs: set<int>)
    ensures Reserved(ops[p := bs]) == MAXOPBLOCKS - |bs| + Reserved(ops - {p})
  {
    ReservedRemove(ops[p := bs], p);
    assert ops[p := bs] - {p} == ops - {p};
  }

  lemma {:induction false} ReservedBound(ops: map<Pid, set<int>>)
    requires forall p :: p in ops ==> |ops[p]| < MAXOPBLOCKS
    ensures |ops| <= Reserved(ops) <= MAXOPBLOCKS * |ops|
    decreases |ops|
  {
    if ops != map[] {
      var p :| p in ops;
      ReservedRemove(ops, p);
      assert (ops - {p}).Keys == ops.Keys - {p};
      ReservedBound(ops - {p});
    }
  }

  // ----- Buffers -----

  lemma {:induction false} WithoutKeeps(lru: seq<nat>, i: nat, j: nat)
    requires j in lru && j != i
    ensures j in Without(lru, i)
  {
    if lru[0] != j {
      WithoutKeeps(lru[1..], i, j);
    }
  }

  lemma {:induction false} WithoutWithin(lru: seq<nat>, i: nat)
    requires forall k :: 0 <= k < |lru| ==> lru[k] < NBUF
    ensures forall k :: 0 <= k < |Without(lru, i)| ==> Without(lru, i)[k] < NBUF
  {
    if lru != [] {
      WithoutWithin(lru[1..], i);
    }
  }

  lemma OneBuffer(bufs: seq<Buf>, i: nat, j: nat)
    requires Unique(bufs) && i < |bufs| && j < |bufs| && i != j && bufs[i].block.Some?
    ensures bufs[i].block != bufs[j].block
  {
    assert if i < j then Apart(bufs, i, j) else Apart(bufs, j, i);
  }

  lemma UniqueKept(bufs: seq<Buf>, bufs': seq<Buf>)
    requires Unique(bufs) && |bufs'| == |bufs| && forall i :: 0 <= i < |bufs| ==> bufs'[i].block == bufs[i].block
    ensures Unique(bufs')
  {
    forall i: nat, j: nat | i < j < |bufs| ensures Apart(bufs', i, j) {
      assert Apart(bufs, i, j);
    }
  }

  /** Changing who refers to or holds a buffer changes no contents. */
  lemma TouchBuf(bufs: seq<Buf>, i: nat, buf: Buf, pins: set<int>, expected: Disk, ops: map<Pid, set<int>>,
                 start: nat, dirty: set<int>)
    requires i < |bufs| && Unique(bufs) && RefsInv(bufs, pins) && DataInv(bufs, expected) && PinsInv(bufs, pins)
    requires DirtyInv(start, bufs, ops, dirty)
    requires buf.block == bufs[i].block && buf.valid == bufs[i].valid && buf.data == bufs[i].data
    requires RefsOk(buf, pins)
    requires buf.owner == bufs[i].owner || (buf.block.Some? ==> buf.block.value !in dirty)
    ensures Unique(bufs[i := buf]) && RefsInv(bufs[i := buf], pins) && DataInv(bufs[i := buf], expected)
    ensures PinsInv(bufs[i := buf], pins) && DirtyInv(start, bufs[i := buf], ops, dirty)
  {
    var bufs' := bufs[i := buf];
    UniqueKept(bufs, bufs');
    forall j | 0 <= j < |bufs| ensures RefsOk(bufs'[j], pins) && DataOk(bufs'[j], expected) {
      assert RefsOk(bufs[j], pins) && DataOk(bufs[j], expected);
    }
    forall b | b in pins ensures Cached(bufs', b) {
      assert Cached(bufs, b);
      var j: nat :| HoldsAt(bufs, j, b);
      assert HoldsAt(bufs', j, b);
    }
    forall b | b in dirty ensures HeldInOp(bufs', ops, b) {
      assert HeldInOp(bufs, ops, b);
      var j: nat :| HeldAt(bufs, ops, j, b);
      assert HeldAt(bufs', ops, j, b);
    }
  }

  /** Recycling a buffer that nobody refers to for a block that is not cached loses nothing. */
  lemma RecycleBuf(bufs: seq<Buf>, i: nat, p: Pid, b: nat, pins: set<int>, expected: Disk, ops: map<Pid, set<int>>,
                   start: nat, dirty: set<int>)
    requires i < |bufs| && Unique(bufs) && RefsInv(bufs, pins) && DataInv(bufs, expected) && PinsInv(bufs, pins)
    requires DirtyInv(start, bufs, ops, dirty)
    requires bufs[i].refcnt == 0 && forall j :: 0 <= j < |bufs| ==> bufs[j].block != Some(b)
    ensures var bufs' := bufs[i := bufs[i].(block := Some(b), valid := false, refcnt := 1, users := {p},
                                            owner := None)];
            && Unique(bufs') && RefsInv(bufs', pins) && DataInv(bufs', expected) && PinsInv(bufs', pins)
            && DirtyInv(start, bufs', ops, dirty)
  {
    var bufs' := bufs[i := bufs[i].(block := Some(b), valid := false, refcnt := 1, users := {p}, owner := None)];
    assert RefsOk(bufs[i], pins);
    assert !Cached(bufs, b);
    forall j: nat, k: nat | j < k < |bufs| ensures Apart(bufs', j, k) {
      assert Apart(bufs, j, k);
    }
    forall j | 0 <= j < |bufs| ensures RefsOk(bufs'[j], pins) && DataOk(bufs'[j], expected) {
      assert RefsOk(bufs[j], pins) && DataOk(bufs[j], expected);
    }
    forall c | c in pins ensures Cached(bufs', c) {
      assert Cached(bufs, c);
      var j: nat :| HoldsAt(bufs, j, c);
      assert j != i;
      assert HoldsAt(bufs', j, c);
    }
    forall c | c in dirty ensures HeldInOp(bufs', ops, c) {
      assert HeldInOp(bufs, ops, c);
      var j: nat :| HeldAt(bufs, ops, j, c);
      assert RefsOk(bufs[j], pins) && j != i;
      assert HeldAt(bufs', ops, j, c);
    }
  }

  /** Assembles what is said of the cache, for the pins and the expected contents as given. */
  lemma CacheFrom(s: State, pins: set<int>, expected: Disk)
    requires Shape(s) && Pins(s) == pins && Expected(s) == expected
    requires Unique(s.bufs) && RefsInv(s.bufs, pins) && DataInv(s.bufs, expected) && PinsInv(s.bufs, pins)
    requires DirtyInv(s.start, s.bufs, s.ops, s.dirty) && Clean(s.disk, expected, pins, s.dirty)
    requires LogInv(s.blocks, s.outstanding, s.ops, s.asleep, s.dirty, s.phase)
    ensures CacheInv(s)
  {
  }

  /** A step that changes buffers only keeps the invariant if it keeps what is said of the buffers. */
  lemma BufsStep(s: State, bufs: seq<Buf>, lru: seq<nat>)
    requires Inv(s)
    requires BufsShape(bufs, lru, |s.disk|) && Unique(bufs) && RefsInv(bufs, Pins(s)) && DataInv(bufs, Expected(s))
    requires PinsInv(bufs, Pins(s)) && DirtyInv(s.start, bufs, s.ops, s.dirty)
    ensures Inv(s.(bufs := bufs, lru := lru))
  {
    assert Pins(s.(bufs := bufs, lru := lru)) == Pins(s);
    assert Expected(s.(bufs := bufs, lru := lru)) == Expected(s);
  }

  lemma TouchShape(bufs: seq<Buf>, i: nat, buf: Buf, lru: seq<nat>, size: nat)
    requires BufsShape(bufs, lru, size) && i < NBUF
    requires buf.block == bufs[i].block && buf.valid == bufs[i].valid && buf.data == bufs[i].data
    ensures BufsShape(bufs[i := buf], lru, size)
  {
  }

  lemma OneMoreUser(buf: Buf, p: Pid, pins: set<int>)
    requires RefsOk(buf, pins) && p !in buf.users && buf.block.Some?
    ensures RefsOk(buf.(refcnt := buf.refcnt + 1, users := buf.users + {p}), pins)
  {
  }

  lemma OneLessUser(buf: Buf, p: Pid, pins: set<int>)
    requires RefsOk(buf, pins) && buf.owner == Some(p)
    ensures RefsOk(buf.(refcnt := Decrement(buf.refcnt), users := buf.users - {p}, owner := None), pins)
  {
  }

  lemma HitKeeps(s: State, p: Pid, i: nat)
    requires Inv(s) && i < NBUF && p !in s.bufs[i].users && s.bufs[i].block.Some?
    ensures Inv(s.(bufs := s.bufs[i := s.bufs[i].(refcnt := s.bufs[i].refcnt + 1, users := s.bufs[i].users + {p})]))
  {
    var buf := s.bufs[i].(refcnt := s.bufs[i].refcnt + 1, users := s.bufs[i].users + {p});
    OneMoreUser(s.bufs[i], p, Pins(s));
    TouchBuf(s.bufs, i, buf, Pins(s), Expected(s), s.ops, s.start, s.dirty);
    TouchShape(s.bufs, i, buf, s.lru, |s.disk|);
    BufsStep(s, s.bufs[i := buf], s.lru);
  }

  lemma MissKeeps(s: State, i: nat, p: Pid, b: nat)
    requires Inv(s) && i < NBUF && b < |s.disk| && s.bufs[i].refcnt == 0
    requires forall j :: 0 <= j < NBUF ==> s.bufs[j].block != Some(b)
    ensures Inv(s.(bufs := s.bufs[i := s.bufs[i].(block := Some(b), valid := false, refcnt := 1, users := {p},
                                                  owner := None)]))
  {
    var buf := s.bufs[i].(block := Some(b), valid := false, refcnt := 1, users := {p}, owner := None);
    RecycleBuf(s.bufs, i, p, b, Pins(s), Expected(s), s.ops, s.start, s.dirty);
    BufsStep(s, s.bufs[i := buf], s.lru);
  }

  lemma DoBgetHit(s: State, p: Pid, b: nat, i: nat)
    requires |s.bufs| == NBUF && FindCached(s.bufs, b) == Some(i) && forall j :: 0 <= j < |s.lru| ==> s.lru[j] < NBUF
    ensures i < NBUF && s.bufs[i].block == Some(b)
    ensures DoBget(s, p, b)
         == s.(bufs := s.bufs[i := s.bufs[i].(refcnt := s.bufs[i].refcnt + 1, users := s.bufs[i].users + {p})])
  {
  }

  lemma BgetHitKeeps(s: State, p: Pid, b: nat, i: nat)
    requires Inv(s) && FindCached(s.bufs, b) == Some(i) && i < NBUF && p !in s.bufs[i].users
    ensures Inv(DoBget(s, p, b))
  {
    DoBgetHit(s, p, b, i);
    HitKeeps(s, p, i);
  }

  lemma BgetMissKeeps(s: State, p: Pid, b: nat, i: nat)
    requires Inv(s) && FindCached(s.bufs, b) == None && b < |s.disk| && Victim(s.bufs, s.lru) == Some(i) && i < NBUF
    ensures Inv(DoBget(s, p, b))
  {
    MissKeeps(s, i, p, b);
  }

  lemma BgetKeeps(s: State, p: Pid, b: nat)
    requires Inv(s) && Enabled(s, Bget(p, b))
    ensures Inv(DoBget(s, p, b))
  {
    match FindCached(s.bufs, b)
    case Some(i) => BgetHitKeeps(s, p, b, i);
    case None => BgetMissKeeps(s, p, b, Victim(s.bufs, s.lru).value);
  }

  lemma AcquireKeeps(s: State, p: Pid, i: nat)
    requires Inv(s) && Enabled(s, Acquire(p, i))
    ensures Inv(s.(bufs := s.bufs[i := s.bufs[i].(owner := Some(p))]))
  {
    assert RefsOk(s.bufs[i], Pins(s));
    NotHeld(s.bufs, i, s.ops);
    var buf := s.bufs[i].(owner := Some(p));
    TouchBuf(s.bufs, i, buf, Pins(s), Expected(s), s.ops, s.start, s.dirty);
    TouchShape(s.bufs, i, buf, s.lru, |s.disk|);
    BufsStep(s, s.bufs[i := buf], s.lru);
  }

  /** The block of an unlocked buffer is held by nobody. */
  lemma NotHeld(bufs: seq<Buf>, i: nat, ops: map<Pid, set<int>>)
    requires i < |bufs| && Unique(bufs) && bufs[i].owner == None
    ensures bufs[i].block.Some? ==> !HeldInOp(bufs, ops, bufs[i].block.value)
  {
    if bufs[i].block.Some? {
      forall j: nat | j < |bufs| && j != i ensures bufs[j].block != bufs[i].block {
        OneBuffer(bufs, i, j);
      }
    }
  }

  lemma ReleaseShape(bufs: seq<Buf>, lru: seq<nat>, i: nat, size: nat)
    requires BufsShape(bufs, lru, size) && i < NBUF
    ensures BufsShape(bufs, [i] + Without(lru, i), size)
  {
    WithoutWithin(lru, i);
    forall j: nat | j < NBUF ensures j in [i] + Without(lru, i) {
      if j != i {
        WithoutKeeps(lru, i, j);
      }
    }
  }

  /** A release, with whichever order of buffers results. */
  lemma ReleaseTo(s: State, p: Pid, i: nat, lru: seq<nat>)
    requires Inv(s) && i < NBUF && s.bufs[i].owner == Some(p) && !IsDirty(s, i)
    requires lru == s.lru || lru == [i] + Without(s.lru, i)
    ensures Inv(s.(bufs := s.bufs[i := s.bufs[i].(refcnt := Decrement(s.bufs[i].refcnt), users := s.bufs[i].users - {p},
                                                  owner := None)], lru := lru))
  {
    var buf := s.bufs[i].(refcnt := Decrement(s.bufs[i].refcnt), users := s.bufs[i].users - {p}, owner := None);
    OneLessUser(s.bufs[i], p, Pins(s));
    TouchBuf(s.bufs, i, buf, Pins(s), Expected(s), s.ops, s.start, s.dirty);
    TouchShape(s.bufs, i, buf, s.lru, |s.disk|);
    ReleaseShape(s.bufs[i := buf], s.lru, i, |s.disk|);
    BufsStep(s, s.bufs[i := buf], lru);
  }

  lemma ReleaseKeeps(s: State, p: Pid, i: nat)
    requires Inv(s) && Enabled(s, Release(p, i))
    ensures Inv(DoRelease(s, p, i))
  {
    ReleaseTo(s, p, i, DoRelease(s, p, i).lru);
  }

  // ----- Reading, modifying, logging -----

  /** Filling or changing the contents of the one buffer that holds a block. */
  lemma FillBuf(bufs: seq<Buf>, i: nat, buf: Buf, pins: set<int>, expected: Disk, expected': Disk,
                ops: map<Pid, set<int>>, start: nat, dirty: set<int>)
    requires i < |bufs| && Unique(bufs) && RefsInv(bufs, pins) && DataInv(bufs, expected) && PinsInv(bufs, pins)
    requires DirtyInv(start, bufs, ops, dirty)
    requires bufs[i].block.Some? && buf == bufs[i].(valid := true, data := buf.data)
    requires bufs[i].block.value < |expected| && expected' == expected[bufs[i].block.value := buf.data]
    ensures Unique(bufs[i := buf]) && RefsInv(bufs[i := buf], pins) && DataInv(bufs[i := buf], expected')
    ensures PinsInv(bufs[i := buf], pins) && DirtyInv(start, bufs[i := buf], ops, dirty)
  {
    var bufs' := bufs[i := buf];
    UniqueKept(bufs, bufs');
    forall j | 0 <= j < |bufs| ensures RefsOk(bufs'[j], pins) && DataOk(bufs'[j], expected') {
      assert RefsOk(bufs[j], pins) && DataOk(bufs[j], expected);
      if j != i {
        OneBuffer(bufs, i, j);
      }
    }
    forall b | b in pins ensures Cached(bufs', b) {
      assert Cached(bufs, b);
      var j: nat :| HoldsAt(bufs, j, b);
      assert HoldsAt(bufs', j, b);
    }
    forall b | b in dirty ensures HeldInOp(bufs', ops, b) {
      assert HeldInOp(bufs, ops, b);
      var j: nat :| HeldAt(bufs, ops, j, b);
      assert HeldAt(bufs', ops, j, b);
    }
  }

  lemma FillShape(bufs: seq<Buf>, i: nat, data: Block, lru: seq<nat>, size: nat)
    requires BufsShape(bufs, lru, size) && i < NBUF && |data| == WORDS && bufs[i].block.Some?
    ensures BufsShape(bufs[i := bufs[i].(valid := true, data := data)], lru, size)
  {
  }

  /** An invalid buffer's block is neither pinned nor dirty, so the disk holds what readers expect. */
  lemma InvalidIsClean(bufs: seq<Buf>, i: nat, pins: set<int>, start: nat, ops: map<Pid, set<int>>, dirty: set<int>)
    requires i < |bufs| && Unique(bufs) && PinsInv(bufs, pins) && DirtyInv(start, bufs, ops, dirty)
    requires bufs[i].block.Some? && !bufs[i].valid
    ensures bufs[i].block.value !in pins && bufs[i].block.value !in dirty
  {
    var b := bufs[i].block.value;
    forall j: nat | j < |bufs| && j != i ensures bufs[j].block != Some(b) {
      OneBuffer(bufs, i, j);
    }
    assert !Cached(bufs, b) && !HeldInOp(bufs, ops, b);
  }

  lemma ReadDiskKeeps(s: State, p: Pid, i: nat)
    requires Inv(s) && Enabled(s, ReadDisk(p, i))
    ensures Inv(s.(bufs := s.bufs[i := s.bufs[i].(valid := true, data := s.disk[s.bufs[i].block.value])]))
  {
    var b := s.bufs[i].block.value;
    InvalidIsClean(s.bufs, i, Pins(s), s.start, s.ops, s.dirty);
    assert Expected(s)[b] == s.disk[b];
    assert Expected(s)[b := s.disk[b]] == Expected(s);
    var buf := s.bufs[i].(valid := true, data := s.disk[b]);
    FillBuf(s.bufs, i, buf, Pins(s), Expected(s), Expected(s), s.ops, s.start, s.dirty);
    FillShape(s.bufs, i, s.disk[b], s.lru, |s.disk|);
    BufsStep(s, s.bufs[i := buf], s.lru);
  }

  lemma InOpIsIdle(s: State, p: Pid)
    requires Inv(s) && p in s.ops
    ensures s.phase.Idle? && Pins(s) == Elements(s.blocks) && Expected(s) == s.flat && s.outstanding > 0
  {
    assert |s.ops| > 0;
  }

  lemma ModifyKeeps(s: State, p: Pid, i: nat, data: Block)
    requires Inv(s) && Enabled(s, Modify(p, i, data))
    ensures Inv(Do(s, Modify(p, i, data)))
  {
    InOpIsIdle(s, p);
    var b := s.bufs[i].block.value;
    var s' := Do(s, Modify(p, i, data));
    var buf := s.bufs[i].(valid := true, data := data);
    assert s'.bufs == s.bufs[i := buf];
    FillBuf(s.bufs, i, buf, Pins(s), s.flat, s'.flat, s.ops, s.start, s.dirty);
    FillShape(s.bufs, i, data, s.lru, |s.disk|);
    assert HeldInOp(s'.bufs, s'.ops, b) by {
      assert HeldAt(s'.bufs, s'.ops, i, b);
    }
    assert Clean(s'.disk, s'.flat, Pins(s), s'.dirty);
    WriteShape(s.flat, |s.disk|, b, data);
    CacheFrom(s', Pins(s), s'.flat);
  }

  // The log's bookkeeping for a newly logged block.

  lemma LogNewBlock(blocks: seq<int>, outstanding: int, ops: map<Pid, set<int>>, asleep: set<Pid>, dirty: set<int>,
                    p: Pid, b: int)
    requires LogInv(blocks, outstanding, ops, asleep, dirty, Idle) && p in ops && b !in blocks
    requires |ops[p] + {b}| < MAXOPBLOCKS
    ensures |blocks| < LOGBLOCKS
    ensures LogInv(blocks + [b], outstanding, ops[p := ops[p] + {b}], asleep, dirty - {b}, Idle)
  {
    ReservedBound(ops);
    ReservedRemove(ops, p);
    ReservedAdd(ops, p, ops[p] + {b});
    assert ops[p := ops[p] + {b}].Keys == ops.Keys;
    assert |ops[p := ops[p] + {b}]| == |ops|;
    assert |ops| > 0;
  }

  lemma LogOldBlock(blocks: seq<int>, outstanding: int, ops: map<Pid, set<int>>, asleep: set<Pid>, dirty: set<int>,
                    p: Pid, b: int)
    requires LogInv(blocks, outstanding, ops, asleep, dirty, Idle) && p in ops && b in blocks
    requires |ops[p] + {b}| < MAXOPBLOCKS
    ensures |blocks| < LOGBLOCKS
    ensures LogInv(blocks, outstanding, ops[p := ops[p] + {b}], asleep, dirty - {b}, Idle)
  {
    ReservedBound(ops);
    ReservedRemove(ops, p);
    ReservedAdd(ops, p, ops[p] + {b});
    assert ops[p := ops[p] + {b}].Keys == ops.Keys;
    assert |ops[p := ops[p] + {b}]| == |ops|;
    assert |ops| > 0;
    assert |ops[p]| <= |ops[p] + {b}| by {
      if b in ops[p] {
        assert ops[p] + {b} == ops[p];
      }
    }
  }

  /** Pinning the one buffer that holds a block, when the block joins the log. */
  lemma PinBuf(bufs: seq<Buf>, i: nat, buf: Buf, b: int, pins: set<int>, expected: Disk, ops: map<Pid, set<int>>,
               ops': map<Pid, set<int>>, start: nat, dirty: set<int>)
    requires i < |bufs| && Unique(bufs) && RefsInv(bufs, pins) && DataInv(bufs, expected) && PinsInv(bufs, pins)
    requires DirtyInv(start, bufs, ops, dirty) && ops.Keys == ops'.Keys
    requires b >= 0 && bufs[i].block == Some(b) && bufs[i].valid && b !in pins
    requires buf == bufs[i].(refcnt := bufs[i].refcnt + 1)
    ensures Unique(bufs[i := buf]) && RefsInv(bufs[i := buf], pins + {b}) && DataInv(bufs[i := buf], expected)
    ensures PinsInv(bufs[i := buf], pins + {b}) && DirtyInv(start, bufs[i := buf], ops', dirty - {b})
  {
    var bufs' := bufs[i := buf];
    UniqueKept(bufs, bufs');
    forall j | 0 <= j < |bufs| ensures RefsOk(bufs'[j], pins + {b}) && DataOk(bufs'[j], expected) {
      assert RefsOk(bufs[j], pins) && DataOk(bufs[j], expected);
      if j != i {
        OneBuffer(bufs, i, j);
      }
    }
    forall c | c in pins + {b} ensures Cached(bufs', c) {
      if c in pins {
        assert Cached(bufs, c);
        var j: nat :| HoldsAt(bufs, j, c);
        assert HoldsAt(bufs', j, c);
      } else {
        assert HoldsAt(bufs', i, c);
      }
    }
    DirtyKept(bufs, bufs', ops, ops', start, dirty, dirty - {b});
  }

  lemma DirtyKept(bufs: seq<Buf>, bufs': seq<Buf>, ops: map<Pid, set<int>>, ops': map<Pid, set<int>>, start: nat,
                  dirty: set<int>, dirty': set<int>)
    requires DirtyInv(start, bufs, ops, dirty) && dirty' <= dirty && ops.Keys <= ops'.Keys && |bufs| == |bufs'|
    requires forall j :: 0 <= j < |bufs| ==>
               bufs'[j].block == bufs[j].block && bufs'[j].valid == bufs[j].valid && bufs'[j].owner == bufs[j].owner
    ensures DirtyInv(start, bufs', ops', dirty')
  {
    forall c | c in dirty' ensures HeldInOp(bufs', ops', c) {
      assert HeldInOp(bufs, ops, c);
      var j: nat :| HeldAt(bufs, ops, j, c);
      assert bufs[j].owner.value in ops.Keys;
      assert HeldAt(bufs', ops', j, c);
    }
  }

  lemma DistinctMore(blocks: seq<int>, b: int)
    requires Distinct(blocks) && b !in blocks
    ensures Distinct(blocks + [b])
  {
    forall i: nat, j: nat | i < j < |blocks| + 1 ensures Differ(blocks + [b], i, j) {
      assert j < |blocks| ==> Differ(blocks, i, j);
    }
  }

  lemma LogWriteKeeps(s: State, p: Pid, i: nat)
    requires Inv(s) && Enabled(s, LogWrite(p, i))
    ensures |s.blocks| < LOGBLOCKS
    ensures Inv(DoLogWrite(s, p, i))
  {
    InOpIsIdle(s, p);
    var b := s.bufs[i].block.value as int;
    if b in s.blocks {
      LogOldKeeps(s, p, b);
    } else {
      LogNewKeeps(s, p, i, b);
      DistinctMore(s.blocks, b);
    }
  }

  /** A block that is in the log already is absorbed. */
  lemma LogOldKeeps(s: State, p: Pid, b: int)
    requires CacheInv(s) && s.phase.Idle? && p in s.ops && b in s.blocks && |s.ops[p] + {b}| < MAXOPBLOCKS
    ensures |s.blocks| < LOGBLOCKS && CacheInv(s.(ops := s.ops[p := s.ops[p] + {b}], dirty := s.dirty - {b}))
  {
    LogOldBlock(s.blocks, s.outstanding, s.ops, s.asleep, s.dirty, p, b);
    DirtyKept(s.bufs, s.bufs, s.ops, s.ops[p := s.ops[p] + {b}], s.start, s.dirty, s.dirty - {b});
    CleanLogged(s.disk, s.flat, Pins(s), s.dirty, b);
    assert Pins(s) + {b} == Pins(s);
  }

  /** A block that is new to the log is recorded and pinned. */
  lemma LogNewKeeps(s: State, p: Pid, i: nat, b: int)
    requires CacheInv(s) && s.phase.Idle? && p in s.ops && HoldsAt(s.bufs, i, b) && b < |s.disk|
    requires b !in s.blocks && !InLog(s.start, b) && |s.ops[p] + {b}| < MAXOPBLOCKS
    ensures |s.blocks| < LOGBLOCKS
    ensures CacheInv(s.(ops := s.ops[p := s.ops[p] + {b}], dirty := s.dirty - {b}, blocks := s.blocks + [b],
                        bufs := s.bufs[i := s.bufs[i].(refcnt := s.bufs[i].refcnt + 1)]))
  {
    LogNewBlock(s.blocks, s.outstanding, s.ops, s.asleep, s.dirty, p, b);
    var ops := s.ops[p := s.ops[p] + {b}];
    assert ops.Keys == s.ops.Keys;
    var buf := s.bufs[i].(refcnt := s.bufs[i].refcnt + 1);
    PinBuf(s.bufs, i, buf, b, Pins(s), s.flat, s.ops, ops, s.start, s.dirty);
    TouchShape(s.bufs, i, buf, s.lru, |s.disk|);
    CleanLogged(s.disk, s.flat, Pins(s), s.dirty, b);
    OneMoreBlock(s.disk, s.start, s.blocks, b);
    assert s.phase == Idle;
    IdlePins(s.phase, s.blocks);
    IdlePins(s.phase, s.blocks + [b]);
    CacheFrom(s.(ops := ops, dirty := s.dirty - {b}, blocks := s.blocks + [b], bufs := s.bufs[i := buf]),
              Pins(s) + {b}, s.flat);
  }

  lemma IdlePins(phase: Phase, blocks: seq<int>)
    requires phase.Idle?
    ensures Pinned(phase, blocks) == Elements(blocks)
  {
  }

  lemma OneMoreBlock(disk: Disk, start: nat, blocks: seq<int>, b: int)
    requires HomeBlocks(disk, start, blocks) && |blocks| < LOGBLOCKS && 0 <= b < |disk| && !InLog(start, b)
    ensures HomeBlocks(disk, start, blocks + [b]) && Elements(blocks + [b]) == Elements(blocks) + {b}
  {
  }

  lemma CleanLogged(disk: Disk, flat: Disk, pins: set<int>, dirty: set<int>, b: int)
    requires Clean(disk, flat, pins, dirty)
    ensures Clean(disk, flat, pins + {b}, dirty - {b})
  {
  }

  // ----- Operations -----

  /** Another operation joins while its reservation still fits. */
  lemma LogOpJoins(blocks: seq<int>, outstanding: int, ops: map<Pid, set<int>>, asleep: set<Pid>, dirty: set<int>,
                   p: Pid)
    requires LogInv(blocks, outstanding, ops, asleep, dirty, Idle) && p !in ops
    requires |blocks| + (outstanding + 1) * MAXOPBLOCKS <= LOGBLOCKS
    ensures LogInv(blocks, outstanding + 1, ops[p := {}], asleep - {p}, dirty, Idle)
  {
    ReservedBound(ops);
    ReservedAdd(ops, p, {});
    assert ops - {p} == ops;
    assert ops[p := {}].Keys == ops.Keys + {p};
    assert |ops[p := {}]| == |ops| + 1;
  }

  lemma JoinKeeps(s: State, p: Pid)
    requires Inv(s) && s.phase.Idle? && p !in s.ops
    requires |s.blocks| + (s.outstanding + 1) * MAXOPBLOCKS <= LOGBLOCKS
    ensures Inv(s.(outstanding := s.outstanding + 1, ops := s.ops[p := {}], asleep := s.asleep - {p}))
  {
    LogOpJoins(s.blocks, s.outstanding, s.ops, s.asleep, s.dirty, p);
    DirtyKept(s.bufs, s.bufs, s.ops, s.ops[p := {}], s.start, s.dirty, s.dirty);
  }

  lemma FallAsleepKeeps(s: State, p: Pid)
    requires Inv(s) && !s.phase.Recovering? && (s.phase.Committing? || s.outstanding > 0)
    ensures Inv(s.(asleep := s.asleep + {p}))
  {
  }

  /** A log too full to admit one more operation has an operation running. */
  lemma FullLogIsBusy(blocks: seq<int>, outstanding: int, ops: map<Pid, set<int>>, asleep: set<Pid>, dirty: set<int>)
    requires LogInv(blocks, outstanding, ops, asleep, dirty, Idle)
    requires |blocks| + (outstanding + 1) * MAXOPBLOCKS > LOGBLOCKS
    ensures outstanding > 0
  {
  }

  lemma BeginOpKeeps(s: State, p: Pid)
    requires Inv(s) && Enabled(s, BeginOp(p))
    ensures Inv(DoBeginOp(s, p))
  {
    if s.phase.Committing? {
      FallAsleepKeeps(s, p);
    } else if |s.blocks| + (s.outstanding + 1) * MAXOPBLOCKS > LOGBLOCKS {
      FullLogIsBusy(s.blocks, s.outstanding, s.ops, s.asleep, s.dirty);
      FallAsleepKeeps(s, p);
    } else {
      JoinKeeps(s, p);
    }
  }

  // ----- The end of an operation -----

  lemma {:induction false} AppliedAt(d: Disk, tx: Transaction, k: nat, i: nat)
    requires i < k <= |tx.blocks| == |tx.data| && Distinct(tx.blocks)
    requires forall j :: 0 <= j < |tx.blocks| ==> 0 <= tx.blocks[j] < |d|
    ensures Applied(d, tx, k)[tx.blocks[i]] == tx.data[i]
    decreases k
  {
    if i < k - 1 {
      AppliedAt(d, tx, k - 1, i);
      assert Differ(tx.blocks, i, k - 1);
    }
  }

  lemma {:induction false} AppliedOther(d: Disk, tx: Transaction, k: nat, b: nat)
    requires k <= |tx.blocks| == |tx.data| && b < |d| && b !in tx.blocks
    requires forall j :: 0 <= j < |tx.blocks| ==> 0 <= tx.blocks[j] < |d|
    ensures Applied(d, tx, k)[b] == d[b]
    decreases k
  {
    if k > 0 {
      AppliedOther(d, tx, k - 1, b);
    }
  }

  /** With nothing dirty, the flat disk is the disk with the logged blocks applied. */
  lemma FlatIsApplied(disk: Disk, flat: Disk, blocks: seq<int>, start: nat)
    requires Clean(disk, flat, Elements(blocks), {}) && Distinct(blocks) && HomeBlocks(disk, start, blocks)
    ensures SameHome(flat, Apply(disk, Transaction(blocks, FlatData(flat, blocks))), start)
  {
    var tx := Transaction(blocks, FlatData(flat, blocks));
    forall b: nat | b < |disk| ensures flat[b] == Apply(disk, tx)[b] {
      if b in blocks {
        var i :| 0 <= i < |blocks| && blocks[i] == b;
        AppliedAt(disk, tx, |blocks|, i);
      } else {
        AppliedOther(disk, tx, |blocks|, b);
      }
    }
  }

  lemma CommitBegins(s: State)
    requires Shape(s) && IdleInv(s.start, s.disk, s.blocks, s.durable)
    requires Clean(s.disk, s.flat, Elements(s.blocks), {})
    ensures CommitInv(s.start, s.disk, s.blocks, s.flat, s.durable, s.disk,
                      Transaction(s.blocks, FlatData(s.flat, s.blocks)), 0)
  {
    if s.blocks != [] {
      var tx := Transaction(s.blocks, FlatData(s.flat, s.blocks));
      FlatIsApplied(s.disk, s.flat, s.blocks, s.start);
      assert Committable(s.disk, s.start, tx);
    }
  }

  lemma OpLeaves(bufs: seq<Buf>, ops: map<Pid, set<int>>, p: Pid, start: nat, dirty: set<int>)
    requires Unique(bufs) && DirtyInv(start, bufs, ops, dirty)
    requires forall i :: 0 <= i < |bufs| && bufs[i].owner == Some(p) && bufs[i].block.Some? ==>
               bufs[i].block.value !in dirty
    ensures DirtyInv(start, bufs, ops - {p}, dirty)
    ensures ops - {p} == map[] ==> dirty == {}
  {
    forall c | c in dirty ensures HeldInOp(bufs, ops - {p}, c) {
      assert HeldInOp(bufs, ops, c);
      var j: nat :| HeldAt(bufs, ops, j, c);
      assert HeldAt(bufs, ops - {p}, j, c);
    }
    if ops - {p} == map[] {
      forall c ensures c !in dirty {
        assert !HeldInOp(bufs, ops - {p}, c);
      }
    }
  }

  lemma LogOpLeaves(blocks: seq<int>, outstanding: int, ops: map<Pid, set<int>>, asleep: set<Pid>, dirty: set<int>,
                    p: Pid, phase: Phase)
    requires LogInv(blocks, outstanding, ops, asleep, dirty, Idle) && p in ops
    requires if outstanding == 1 then phase.Committing? else phase.Idle?
    ensures (ops - {p} == map[]) <==> outstanding == 1
    ensures LogInv(blocks, outstanding - 1, ops - {p}, if outstanding == 1 then asleep else {}, dirty, phase)
  {
    ReservedRemove(ops, p);
    assert (ops - {p}).Keys == ops.Keys - {p};
    assert |ops - {p}| == |ops| - 1;
    if |ops - {p}| == 0 {
      assert (ops - {p}).Keys == {};
    }
  }

  lemma EndOpKeeps(s: State, p: Pid)
    requires Inv(s) && Enabled(s, EndOp(p))
    ensures Inv(DoEndOp(s, p))
  {
    InOpIsIdle(s, p);
    var s' := DoEndOp(s, p);
    OpLeaves(s.bufs, s.ops, p, s.start, s.dirty);
    LogOpLeaves(s.blocks, s.outstanding, s.ops, s.asleep, s.dirty, p, s'.phase);
    if s'.outstanding == 0 {
      CommitBegins(s);
    }
  }

  // ----- The writes of a commit -----

  lemma CommitFrom(s: State, p: Pid, base: Disk, tx: Transaction, k: nat)
    requires CacheInv(s) && s.phase == Committing(p, base, tx, k)
    requires CommitInv(s.start, s.disk, s.blocks, s.flat, s.durable, base, tx, k)
    ensures Inv(s)
  {
  }

  lemma CommitLogWrite(start: nat, disk: Disk, blocks: seq<int>, flat: Disk, durable: Disk, base: Disk, tx: Transaction,
                       k: nat, dst: int, data: Block)
    requires CommitInv(start, disk, blocks, flat, durable, base, tx, k) && tx.blocks != []
    requires k < |tx.blocks| && dst == start + k + 1 && data == flat[tx.blocks[k]]
    ensures CommitInv(start, disk[dst := data], blocks, flat[dst := data], durable, base, tx, k + 1)
  {
    AppliedAt(base, tx, |tx.blocks|, k);
  }

  lemma CommitHeadWrite(start: nat, disk: Disk, blocks: seq<int>, flat: Disk, durable: Disk, base: Disk,
                        tx: Transaction, k: nat, data: Block)
    requires CommitInv(start, disk, blocks, flat, durable, base, tx, k) && tx.blocks != []
    requires k == |tx.blocks| && start < |disk| == |flat| && |disk[start]| == WORDS
    requires data == PutHead(disk[start], blocks)
    ensures CommitInv(start, disk[start := data], blocks, flat[start := data], flat[start := data], base, tx, k + 1)
  {
    LogWrittenAt(base, start, tx.data, k);
    LoggedSound(base, start, tx);
  }

  /** The log block that an install copies holds what everyone sees in its home. */
  lemma InstalledIsFlat(start: nat, flat: Disk, base: Disk, tx: Transaction, tail: nat)
    requires Committable(base, start, tx) && SameHome(flat, Apply(base, tx), start) && tail < |tx.blocks|
    ensures 0 <= tx.blocks[tail] < |flat| && flat[tx.blocks[tail]] == Logged(base, start, tx)[start + tail + 1]
  {
    LogWrittenAt(base, start, tx.data, |tx.data|);
    assert Logged(base, start, tx)[start + tail + 1] == tx.data[tail];
    AppliedAt(base, tx, |tx.blocks|, tail);
  }

  /** An install reads its log block as it was logged, and writes it home. */
  lemma InstallStep(base: Disk, start: nat, tx: Transaction, k: nat)
    requires Committable(base, start, tx) && |tx.blocks| < k < 2 * |tx.blocks| + 1
    ensures var d, log := CommitState(base, start, tx, k), Logged(base, start, tx);
            && |d| == |base| && d[start + k - |tx.blocks|] == log[start + k - |tx.blocks|]
            && CommitState(base, start, tx, k + 1) == d[tx.blocks[k - |tx.blocks| - 1] := log[start + k - |tx.blocks|]]
  {
  }

  lemma CommitInstallWrite(start: nat, disk: Disk, blocks: seq<int>, flat: Disk, durable: Disk, base: Disk,
                           tx: Transaction, k: nat, dst: int, data: Block)
    requires CommitInv(start, disk, blocks, flat, durable, base, tx, k) && tx.blocks != []
    requires |tx.blocks| < k < 2 * |tx.blocks| + 1 && dst == tx.blocks[k - |tx.blocks| - 1]
    requires start + LOGBLOCKS < |disk| && data == disk[start + k - |tx.blocks|]
    ensures data == flat[dst]
    ensures CommitInv(start, disk[dst := data], blocks, flat, durable, base, tx, k + 1)
  {
    InstalledIsFlat(start, flat, base, tx, k - |tx.blocks| - 1);
    InstallStep(base, start, tx, k);
  }

  lemma CommitClearWrite(start: nat, disk: Disk, blocks: seq<int>, flat: Disk, durable: Disk, base: Disk,
                         tx: Transaction, k: nat, data: Block)
    requires CommitInv(start, disk, blocks, flat, durable, base, tx, k) && tx.blocks != []
    requires k == 2 * |tx.blocks| + 1 && start < |disk| == |flat| && |disk[start]| == WORDS
    requires data == PutHead(disk[start], [])
    ensures CommitInv(start, disk[start := data], [], flat[start := data], durable, base, tx, k + 1)
  {
    LoggedSound(base, start, tx);
  }

  lemma CleanWrite(disk: Disk, flat: Disk, pins: set<int>, pins': set<int>, dirty: set<int>, dst: nat, data: Block)
    requires Clean(disk, flat, pins, dirty) && dst < |disk| && forall b :: b in pins ==> b in pins' || b == dst
    ensures Clean(disk[dst := data], flat[dst := data], pins', dirty)
  {
  }

  lemma WriteShape(d: Disk, size: nat, dst: nat, data: Block)
    requires DiskShape(d, size) && dst < size && |data| == WORDS
    ensures DiskShape(d[dst := data], size)
  {
  }

  /** Unpinning the one buffer that holds a pinned block. */
  lemma UnpinBuf(bufs: seq<Buf>, i: nat, pins: set<int>, b: int)
    requires i < |bufs| && Unique(bufs) && RefsInv(bufs, pins) && PinsInv(bufs, pins)
    requires b in pins && b >= 0 && bufs[i].block == Some(b)
    ensures var bufs' := bufs[i := bufs[i].(refcnt := Decrement(bufs[i].refcnt))];
            Unique(bufs') && RefsInv(bufs', pins - {b}) && PinsInv(bufs', pins - {b})
  {
    var bufs' := bufs[i := bufs[i].(refcnt := Decrement(bufs[i].refcnt))];
    UniqueKept(bufs, bufs');
    forall j | 0 <= j < |bufs| ensures RefsOk(bufs'[j], pins - {b}) {
      assert RefsOk(bufs[j], pins);
      if j != i {
        OneBuffer(bufs, i, j);
      }
    }
    forall c | c in pins - {b} ensures Cached(bufs', c) {
      assert Cached(bufs, c);
      var j: nat :| HoldsAt(bufs, j, c);
      assert HoldsAt(bufs', j, c);
    }
  }

  /** The state after a commit write that pins and unpins nothing. */
  function Written(s: State, i: nat, dst: nat, data: Block, blocks: seq<int>, durable: Disk): State
    requires s.phase.Committing? && i < |s.bufs| && dst < |s.disk| == |s.flat|
  {
    s.(disk := s.disk[dst := data], bufs := s.bufs[i := s.bufs[i].(valid := true, data := data)],
       blocks := blocks, flat := s.flat[dst := data], durable := durable,
       phase := Committing(s.phase.p, s.phase.base, s.phase.tx, s.phase.k + 1))
  }

  lemma WrittenDone(s: State, i: nat, dst: nat, data: Block, blocks: seq<int>, durable: Disk)
    requires s.phase.Committing? && i < |s.bufs| && dst < |s.disk| == |s.flat|
    requires CacheInv(Written(s, i, dst, data, blocks, durable))
    requires CommitInv(s.start, s.disk[dst := data], blocks, s.flat[dst := data], durable, s.phase.base, s.phase.tx,
                       s.phase.k + 1)
    ensures Inv(Written(s, i, dst, data, blocks, durable))
  {
    CommitFrom(Written(s, i, dst, data, blocks, durable), s.phase.p, s.phase.base, s.phase.tx, s.phase.k + 1);
  }

  lemma CommitCopyTo(s: State, i: nat, dst: nat, data: Block, blocks: seq<int>, durable: Disk)
    requires CacheInv(s) && s.phase.Committing? && i < NBUF
    requires s.bufs[i].block == Some(dst) && s.bufs[i].valid && |data| == WORDS && dst < |s.disk|
    requires blocks == s.blocks || blocks == []
    requires DiskShape(durable, |s.disk|)
    requires Pinned(Committing(s.phase.p, s.phase.base, s.phase.tx, s.phase.k + 1), blocks) == Pins(s)
    ensures CacheInv(Written(s, i, dst, data, blocks, durable))
  {
    FillBuf(s.bufs, i, s.bufs[i].(valid := true, data := data), Pins(s), s.flat, s.flat[dst := data], s.ops, s.start,
            s.dirty);
    FillShape(s.bufs, i, data, s.lru, |s.disk|);
    CleanWrite(s.disk, s.flat, Pins(s), Pins(s), s.dirty, dst, data);
    WriteShape(s.disk, |s.disk|, dst, data);
    WriteShape(s.flat, |s.disk|, dst, data);
    CacheFrom(Written(s, i, dst, data, blocks, durable), Pins(s), s.flat[dst := data]);
  }

  /** What the commit finds in a buffer it owns. */
  lemma CommitFinds(bufs: seq<Buf>, lru: seq<nat>, flat: Disk, i: nat, b: int)
    requires BufsShape(bufs, lru, |flat|) && DataInv(bufs, flat)
    requires i < |bufs| && bufs[i].valid && b >= 0 && bufs[i].block == Some(b)
    ensures b < |flat| && bufs[i].data == flat[b] && |bufs[i].data| == WORDS
  {
    assert DataOk(bufs[i], flat);
  }

  /** The log region is never pinned or dirty, so its blocks are as on disk. */
  lemma LogIsClean(disk: Disk, flat: Disk, start: nat, blocks: seq<int>, pins: set<int>, dirty: set<int>,
                   bufs: seq<Buf>, ops: map<Pid, set<int>>, b: int)
    requires Clean(disk, flat, pins, dirty) && HomeBlocks(disk, start, blocks) && DirtyInv(start, bufs, ops, dirty)
    requires InLog(start, b) && b < |disk| && pins <= Elements(blocks)
    ensures flat[b] == disk[b]
  {
    assert b !in blocks;
  }

  lemma LogBlockSource(s: State, p: Pid, i: nat, j: nat, dst: int)
    requires Inv(s) && Enabled(s, CommitWrite(p, i, j)) && s.phase.k < |s.phase.tx.blocks|
    requires dst == s.start + s.phase.k + 1
    ensures dst < |s.disk| == |s.flat| && |s.bufs[i].data| == WORDS == |s.bufs[j].data| && |s.blocks| <= LOGBLOCKS
    ensures 0 <= s.phase.tx.blocks[s.phase.k] < |s.flat| && s.bufs[j].data == s.flat[s.phase.tx.blocks[s.phase.k]]
  {
    CommitFinds(s.bufs, s.lru, s.flat, i, dst);
    CommitFinds(s.bufs, s.lru, s.flat, j, s.phase.tx.blocks[s.phase.k]);
  }

  /** What is known of the cache before a write of write_log. */
  ghost predicate LogBlockReady(s: State, i: nat, j: nat, dst: int) {
    && s.phase.Committing? && s.phase.k < |s.phase.tx.blocks| && dst == s.start + s.phase.k + 1 < |s.disk| == |s.flat|
    && HoldsAt(s.bufs, i, dst) && j < |s.bufs| && |s.blocks| <= LOGBLOCKS
    && |s.bufs[i].data| == WORDS == |s.bufs[j].data|
  }

  lemma LogBlockFacts(s: State, p: Pid, i: nat, j: nat, dst: int)
    requires Inv(s) && Enabled(s, CommitWrite(p, i, j)) && s.phase.k < |s.phase.tx.blocks|
    requires dst == s.start + s.phase.k + 1
    ensures LogBlockReady(s, i, j, dst)
    ensures CommitInv(s.start, s.disk[dst := s.bufs[j].data], s.blocks, s.flat[dst := s.bufs[j].data], s.durable,
                      s.phase.base, s.phase.tx, s.phase.k + 1)
  {
    LogBlockSource(s, p, i, j, dst);
    CommitLogWrite(s.start, s.disk, s.blocks, s.flat, s.durable, s.phase.base, s.phase.tx, s.phase.k, dst,
                   s.bufs[j].data);
  }

  lemma DoLogBlock(s: State, p: Pid, i: nat, j: nat, dst: nat)
    requires LogBlockReady(s, i, j, dst)
    ensures DoCommitWrite(s, p, i, j) == Written(s, i, dst, s.bufs[j].data, s.blocks, s.durable)
  {
  }

  lemma LogBlockMoves(s: State, i: nat, j: nat, dst: nat)
    requires CacheInv(s) && LogBlockReady(s, i, j, dst)
    ensures CacheInv(Written(s, i, dst, s.bufs[j].data, s.blocks, s.durable))
  {
    assert Pinned(Committing(s.phase.p, s.phase.base, s.phase.tx, s.phase.k + 1), s.blocks) == Pins(s);
    CommitCopyTo(s, i, dst, s.bufs[j].data, s.blocks, s.durable);
  }

  lemma LogBlockKeeps(s: State, p: Pid, i: nat, j: nat)
    requires Inv(s) && Enabled(s, CommitWrite(p, i, j)) && s.phase.k < |s.phase.tx.blocks|
    ensures Inv(DoCommitWrite(s, p, i, j))
  {
    var dst := s.start + s.phase.k + 1;
    LogBlockFacts(s, p, i, j, dst);
    LogBlockMoves(s, i, j, dst);
    WrittenDone(s, i, dst, s.bufs[j].data, s.blocks, s.durable);
    DoLogBlock(s, p, i, j, dst);
  }

  lemma DoHead(s: State, p: Pid, i: nat, j: nat)
    requires s.phase.Committing? && s.phase.k == |s.phase.tx.blocks| && s.phase.tx.blocks != []
    requires i < |s.bufs| && j < |s.bufs| && |s.bufs[i].data| == WORDS && s.bufs[i].valid && |s.blocks| <= LOGBLOCKS
    requires s.start < |s.disk| == |s.flat|
    ensures var data := PutHead(s.bufs[i].data, s.blocks);
            DoCommitWrite(s, p, i, j) == Written(s, i, s.start, data, s.blocks, s.flat[s.start := data])
  {
  }

  lemma HeadFacts(s: State, p: Pid, i: nat, j: nat)
    requires Inv(s) && Enabled(s, CommitWrite(p, i, j)) && s.phase.k == |s.phase.tx.blocks|
    ensures |s.bufs[i].data| == WORDS && |s.blocks| <= LOGBLOCKS && s.start < |s.disk| == |s.flat|
    ensures var data := PutHead(s.bufs[i].data, s.blocks);
            CommitInv(s.start, s.disk[s.start := data], s.blocks, s.flat[s.start := data], s.flat[s.start := data],
                      s.phase.base, s.phase.tx, s.phase.k + 1)
  {
    CommitFinds(s.bufs, s.lru, s.flat, i, s.start);
    PinsAreLogged(s.phase, s.blocks);
    LogIsClean(s.disk, s.flat, s.start, s.blocks, Pins(s), s.dirty, s.bufs, s.ops, s.start);
    CommitHeadWrite(s.start, s.disk, s.blocks, s.flat, s.durable, s.phase.base, s.phase.tx, s.phase.k,
                    PutHead(s.bufs[i].data, s.blocks));
  }

  lemma HeadKeeps(s: State, p: Pid, i: nat, j: nat)
    requires Inv(s) && Enabled(s, CommitWrite(p, i, j)) && s.phase.k == |s.phase.tx.blocks|
    ensures Inv(DoCommitWrite(s, p, i, j))
  {
    HeadFacts(s, p, i, j);
    var data := PutHead(s.bufs[i].data, s.blocks);
    WriteShape(s.flat, |s.disk|, s.start, data);
    CommitCopyTo(s, i, s.start, data, s.blocks, s.flat[s.start := data]);
    WrittenDone(s, i, s.start, data, s.blocks, s.flat[s.start := data]);
    DoHead(s, p, i, j);
  }

  /** No block is pinned when the header is erased. */
  lemma PinsAtClear(p: Pid, base: Disk, tx: Transaction, blocks: seq<int>)
    requires blocks == tx.blocks
    ensures Pinned(Committing(p, base, tx, 2 * |tx.blocks| + 1), blocks) == {}
    ensures Pinned(Committing(p, base, tx, 2 * |tx.blocks| + 2), []) == {}
  {
  }

  /** Only logged blocks are pinned. */
  lemma PinsAreLogged(phase: Phase, blocks: seq<int>)
    ensures Pinned(phase, blocks) <= Elements(blocks)
  {
  }

  /** The block to install next is pinned, and the only one unpinned by the install. */
  lemma PinsAtInstall(p: Pid, base: Disk, tx: Transaction, k: nat, blocks: seq<int>, start: nat)
    requires blocks == tx.blocks && Distinct(tx.blocks) && |tx.blocks| < k < 2 * |tx.blocks| + 1
    ensures var before, after := Committing(p, base, tx, k), Committing(p, base, tx, k + 1);
            && CommitDst(start, tx, k) in Pinned(before, blocks)
            && Pinned(after, blocks) == Pinned(before, blocks) - {CommitDst(start, tx, k)}
  {
    var skip := k - |tx.blocks| - 1;
    ElementsDrop(blocks, skip);
  }

  /** Dropping the first of the elements from `n` on drops that one element. */
  lemma ElementsDrop(xs: seq<int>, n: nat)
    requires Distinct(xs) && n < |xs|
    ensures xs[n] in Elements(xs[n..]) && Elements(xs[n + 1..]) == Elements(xs[n..]) - {xs[n]}
  {
    var rest := xs[n + 1..];
    assert xs[n..] == [xs[n]] + rest;
    forall j | 0 <= j < |rest| ensures rest[j] != xs[n] {
      assert Differ(xs, n, n + 1 + j);
    }
  }

  lemma ClearKeeps(s: State, p: Pid, i: nat, j: nat)
    requires Inv(s) && Enabled(s, CommitWrite(p, i, j)) && s.phase.k == 2 * |s.phase.tx.blocks| + 1
    ensures Inv(DoCommitWrite(s, p, i, j))
  {
    ClearFacts(s, p, i, j);
    PinsAtClear(s.phase.p, s.phase.base, s.phase.tx, s.blocks);
    CommitCopyTo(s, i, s.start, PutHead(s.bufs[i].data, []), [], s.durable);
    WrittenDone(s, i, s.start, PutHead(s.bufs[i].data, []), [], s.durable);
    DoClear(s, p, i, j);
  }

  lemma DoClear(s: State, p: Pid, i: nat, j: nat)
    requires s.phase.Committing? && s.phase.k == 2 * |s.phase.tx.blocks| + 1
    requires i < |s.bufs| && j < |s.bufs| && |s.bufs[i].data| == WORDS && s.bufs[i].valid && |s.blocks| <= LOGBLOCKS
    requires s.start < |s.disk| == |s.flat| && s.phase.tx.blocks != []
    ensures DoCommitWrite(s, p, i, j) == Written(s, i, s.start, PutHead(s.bufs[i].data, []), [], s.durable)
  {
  }

  lemma ClearFacts(s: State, p: Pid, i: nat, j: nat)
    requires Inv(s) && Enabled(s, CommitWrite(p, i, j)) && s.phase.k == 2 * |s.phase.tx.blocks| + 1
    ensures s.blocks == s.phase.tx.blocks && |s.bufs[i].data| == WORDS && s.start < |s.disk| == |s.flat|
    ensures var data := PutHead(s.bufs[i].data, []);
            CommitInv(s.start, s.disk[s.start := data], [], s.flat[s.start := data], s.durable, s.phase.base,
                      s.phase.tx, s.phase.k + 1)
  {
    CommitFinds(s.bufs, s.lru, s.flat, i, s.start);
    PinsAreLogged(s.phase, s.blocks);
    LogIsClean(s.disk, s.flat, s.start, s.blocks, Pins(s), s.dirty, s.bufs, s.ops, s.start);
    CommitClearWrite(s.start, s.disk, s.blocks, s.flat, s.durable, s.phase.base, s.phase.tx, s.phase.k,
                     PutHead(s.bufs[i].data, []));
  }

  /** The cache after an install that unpins its buffer. */
  lemma InstallTo(s: State, i: nat, dst: nat, data: Block)
    requires CacheInv(s) && s.phase.Committing? && i < NBUF && s.bufs[i].block == Some(dst) && s.bufs[i].valid
    requires dst < |s.disk| && data == s.flat[dst]
    requires dst in Pins(s)
    requires Pinned(Committing(s.phase.p, s.phase.base, s.phase.tx, s.phase.k + 1), s.blocks) == Pins(s) - {dst}
    ensures CacheInv(Installed(s, i, dst, data))
  {
    InstallCache(s.bufs, s.lru, |s.disk|, i, Pins(s), dst, s.flat, s.ops, s.start, s.dirty);
    InstallDisk(s.disk, s.flat, Pins(s), s.dirty, dst, data);
    CacheFrom(Installed(s, i, dst, data), Pins(s) - {dst}, s.flat);
  }

  /** The cache after an install: the installed block is unpinned, and nothing else is said of it. */
  lemma InstallCache(bufs: seq<Buf>, lru: seq<nat>, size: nat, i: nat, pins: set<int>, dst: int, flat: Disk,
                     ops: map<Pid, set<int>>, start: nat, dirty: set<int>)
    requires BufsShape(bufs, lru, size) && Unique(bufs) && RefsInv(bufs, pins) && DataInv(bufs, flat)
    requires PinsInv(bufs, pins) && DirtyInv(start, bufs, ops, dirty)
    requires i < NBUF && dst in pins && dst >= 0 && bufs[i].block == Some(dst)
    ensures var bufs' := bufs[i := bufs[i].(refcnt := Decrement(bufs[i].refcnt))];
            && BufsShape(bufs', lru, size) && Unique(bufs') && RefsInv(bufs', pins - {dst}) && DataInv(bufs', flat)
            && PinsInv(bufs', pins - {dst}) && DirtyInv(start, bufs', ops, dirty)
  {
    var bufs' := bufs[i := bufs[i].(refcnt := Decrement(bufs[i].refcnt))];
    UnpinBuf(bufs, i, pins, dst);
    DirtyKept(bufs, bufs', ops, ops, start, dirty, dirty);
    TouchShape(bufs, i, bufs'[i], lru, size);
    DataTouched(bufs, bufs', flat);
  }

  /** The disk after an install: the installed block is as everyone sees it. */
  lemma InstallDisk(disk: Disk, flat: Disk, pins: set<int>, dirty: set<int>, dst: nat, data: Block)
    requires Clean(disk, flat, pins, dirty) && DiskShape(disk, |disk|) && DiskShape(flat, |disk|)
    requires dst < |disk| && data == flat[dst]
    ensures Clean(disk[dst := data], flat, pins - {dst}, dirty) && DiskShape(disk[dst := data], |disk|)
  {
    CleanWrite(disk, flat, pins, pins - {dst}, dirty, dst, data);
    assert flat[dst := data] == flat;
    WriteShape(disk, |disk|, dst, data);
  }

  lemma DataTouched(bufs: seq<Buf>, bufs': seq<Buf>, expected: Disk)
    requires DataInv(bufs, expected) && |bufs| == |bufs'|
    requires forall j :: 0 <= j < |bufs| ==>
               bufs'[j].block == bufs[j].block && bufs'[j].valid == bufs[j].valid && bufs'[j].data == bufs[j].data
    ensures DataInv(bufs', expected)
  {
    forall j | 0 <= j < |bufs| ensures DataOk(bufs'[j], expected) {
      assert DataOk(bufs[j], expected);
    }
  }

  lemma DoInstall(s: State, p: Pid, i: nat, j: nat, dst: int)
    requires InstallReady(s, i, j, dst)
    ensures DoCommitWrite(s, p, i, j) == Installed(s, i, dst, s.bufs[j].data)
  {
    assert s.flat[dst := s.bufs[j].data] == s.flat;
  }

  lemma CommitBlocks(start: nat, disk: Disk, blocks: seq<int>, flat: Disk, durable: Disk, base: Disk, tx: Transaction,
                     k: nat)
    requires CommitInv(start, disk, blocks, flat, durable, base, tx, k) && k <= 2 * |tx.blocks| + 1 && tx.blocks != []
    ensures blocks == tx.blocks && Distinct(blocks) && |blocks| <= LOGBLOCKS
  {
  }

  /** Both buffers of an install hold what the log block holds on disk. */
  lemma InstallSource(s: State, i: nat, j: nat, dst: int, src: int)
    requires BufsShape(s.bufs, s.lru, |s.flat|) && DataInv(s.bufs, s.flat) && InLog(s.start, src)
    requires Clean(s.disk, s.flat, Pins(s), s.dirty) && HomeBlocks(s.disk, s.start, s.blocks)
    requires DirtyInv(s.start, s.bufs, s.ops, s.dirty) && s.phase.Committing?
    requires HoldsAt(s.bufs, i, dst) && HoldsAt(s.bufs, j, src)
    ensures dst < |s.disk| == |s.flat| && s.bufs[i].data == s.flat[dst] && |s.bufs[i].data| == WORDS
    ensures src < |s.disk| && s.bufs[j].data == s.disk[src]
  {
    CommitFinds(s.bufs, s.lru, s.flat, i, dst);
    CommitFinds(s.bufs, s.lru, s.flat, j, src);
    PinsAreLogged(s.phase, s.blocks);
    LogIsClean(s.disk, s.flat, s.start, s.blocks, Pins(s), s.dirty, s.bufs, s.ops, src);
  }

  lemma InstallReads(s: State, p: Pid, i: nat, j: nat, dst: int)
    requires CacheInv(s) && Enabled(s, CommitWrite(p, i, j)) && s.blocks == s.phase.tx.blocks
    requires |s.phase.tx.blocks| < s.phase.k < 2 * |s.phase.tx.blocks| + 1
    requires dst == CommitDst(s.start, s.phase.tx, s.phase.k)
    ensures 0 <= dst < |s.disk| == |s.flat| && s.bufs[i].data == s.flat[dst] && |s.bufs[i].data| == WORDS
    ensures s.start + LOGBLOCKS < |s.disk| && s.bufs[j].data == s.disk[s.start + s.phase.k - |s.phase.tx.blocks|]
  {
    InstallOwns(s, p, i, j, dst);
    InstallSource(s, i, j, dst, s.start + s.phase.k - |s.phase.tx.blocks|);
  }

  /** The buffers that a commit owns for an install. */
  lemma InstallOwns(s: State, p: Pid, i: nat, j: nat, dst: int)
    requires Shape(s) && Enabled(s, CommitWrite(p, i, j))
    requires |s.phase.tx.blocks| < s.phase.k < 2 * |s.phase.tx.blocks| + 1 && |s.phase.tx.blocks| <= LOGBLOCKS
    requires dst == CommitDst(s.start, s.phase.tx, s.phase.k)
    ensures HoldsAt(s.bufs, i, dst) && HoldsAt(s.bufs, j, s.start + s.phase.k - |s.phase.tx.blocks|)
    ensures InLog(s.start, s.start + s.phase.k - |s.phase.tx.blocks|)
  {
  }

  lemma InstallAdvances(s: State, j: nat, dst: int)
    requires s.phase.Committing? && s.phase.tx.blocks != [] && j < |s.bufs|
    requires CommitInv(s.start, s.disk, s.blocks, s.flat, s.durable, s.phase.base, s.phase.tx, s.phase.k)
    requires |s.phase.tx.blocks| < s.phase.k < 2 * |s.phase.tx.blocks| + 1
    requires dst == CommitDst(s.start, s.phase.tx, s.phase.k)
    requires 0 <= dst < |s.disk| == |s.flat|
    requires s.start + LOGBLOCKS < |s.disk| && s.bufs[j].data == s.disk[s.start + s.phase.k - |s.phase.tx.blocks|]
    ensures s.bufs[j].data == s.flat[dst]
    ensures CommitInv(s.start, s.disk[dst := s.bufs[j].data], s.blocks, s.flat, s.durable, s.phase.base, s.phase.tx,
                      s.phase.k + 1)
  {
    CommitInstallWrite(s.start, s.disk, s.blocks, s.flat, s.durable, s.phase.base, s.phase.tx, s.phase.k, dst,
                       s.bufs[j].data);
  }

  lemma InstallPins(s: State, dst: int)
    requires s.phase.Committing? && s.blocks == s.phase.tx.blocks && Distinct(s.blocks)
    requires |s.phase.tx.blocks| < s.phase.k < 2 * |s.phase.tx.blocks| + 1
    requires dst == CommitDst(s.start, s.phase.tx, s.phase.k)
    ensures dst in Pins(s)
    ensures Pinned(Committing(s.phase.p, s.phase.base, s.phase.tx, s.phase.k + 1), s.blocks) == Pins(s) - {dst}
  {
    PinsAtInstall(s.phase.p, s.phase.base, s.phase.tx, s.phase.k, s.blocks, s.start);
  }

  /** What is known of the cache before an install: the log block and its home hold the same contents. */
  ghost predicate InstallReady(s: State, i: nat, j: nat, dst: int) {
    && s.phase.Committing? && s.blocks == s.phase.tx.blocks && Distinct(s.blocks) && |s.blocks| <= LOGBLOCKS
    && |s.phase.tx.blocks| < s.phase.k < 2 * |s.phase.tx.blocks| + 1 && dst == CommitDst(s.start, s.phase.tx, s.phase.k)
    && HoldsAt(s.bufs, i, dst) && j < |s.bufs| && 0 <= dst < |s.disk| == |s.flat| && |s.bufs[i].data| == WORDS
    && s.bufs[j].data == s.bufs[i].data == s.flat[dst]
  }

  /** What an install copies, and where the commit stands after it. */
  lemma InstallFacts(s: State, p: Pid, i: nat, j: nat, dst: int)
    requires Inv(s) && Enabled(s, CommitWrite(p, i, j))
    requires |s.phase.tx.blocks| < s.phase.k < 2 * |s.phase.tx.blocks| + 1
    requires dst == CommitDst(s.start, s.phase.tx, s.phase.k)
    ensures InstallReady(s, i, j, dst)
    ensures CommitInv(s.start, s.disk[dst := s.bufs[j].data], s.blocks, s.flat, s.durable, s.phase.base, s.phase.tx,
                      s.phase.k + 1)
  {
    CommitBlocks(s.start, s.disk, s.blocks, s.flat, s.durable, s.phase.base, s.phase.tx, s.phase.k);
    InstallReads(s, p, i, j, dst);
    InstallAdvances(s, j, dst);
  }

  /** The state after an install. */
  function Installed(s: State, i: nat, dst: nat, data: Block): State
    requires s.phase.Committing? && i < |s.bufs| && dst < |s.disk|
  {
    s.(disk := s.disk[dst := data], bufs := s.bufs[i := s.bufs[i].(refcnt := Decrement(s.bufs[i].refcnt))],
       phase := Committing(s.phase.p, s.phase.base, s.phase.tx, s.phase.k + 1))
  }

  lemma InstallMoves(s: State, i: nat, j: nat, dst: int)
    requires CacheInv(s) && InstallReady(s, i, j, dst)
    ensures CacheInv(Installed(s, i, dst, s.bufs[j].data))
  {
    InstallPins(s, dst);
    InstallTo(s, i, dst, s.bufs[j].data);
  }

  lemma InstallKeeps(s: State, p: Pid, i: nat, j: nat)
    requires Inv(s) && Enabled(s, CommitWrite(p, i, j))
    requires |s.phase.tx.blocks| < s.phase.k < 2 * |s.phase.tx.blocks| + 1
    ensures Inv(DoCommitWrite(s, p, i, j))
  {
    var dst := CommitDst(s.start, s.phase.tx, s.phase.k);
    InstallFacts(s, p, i, j, dst);
    InstallMoves(s, i, j, dst);
    InstallDone(s, i, dst, s.bufs[j].data);
    DoInstall(s, p, i, j, dst);
  }

  lemma InstallDone(s: State, i: nat, dst: nat, data: Block)
    requires s.phase.Committing? && i < |s.bufs| && dst < |s.disk| && CacheInv(Installed(s, i, dst, data))
    requires CommitInv(s.start, s.disk[dst := data], s.blocks, s.flat, s.durable, s.phase.base, s.phase.tx,
                       s.phase.k + 1)
    ensures Inv(Installed(s, i, dst, data))
  {
    CommitFrom(Installed(s, i, dst, data), s.phase.p, s.phase.base, s.phase.tx, s.phase.k + 1);
  }

  lemma CommitWriteKeeps(s: State, p: Pid, i: nat, j: nat)
    requires Inv(s) && Enabled(s, CommitWrite(p, i, j))
    ensures Inv(DoCommitWrite(s, p, i, j))
  {
    if s.phase.k < |s.phase.tx.blocks| {
      LogBlockKeeps(s, p, i, j);
    } else if s.phase.k == |s.phase.tx.blocks| {
      HeadKeeps(s, p, i, j);
    } else if s.phase.k < 2 * |s.phase.tx.blocks| + 1 {
      InstallKeeps(s, p, i, j);
    } else {
      ClearKeeps(s, p, i, j);
    }
  }

  lemma CommitDoneKeeps(s: State, p: Pid)
    requires Inv(s) && Enabled(s, CommitDone(p))
    ensures Inv(s.(phase := Idle, asleep := {}))
  {
    if s.phase.tx.blocks != [] {
      CommitCompletes(s.phase.base, s.start, s.phase.tx);
    }
    assert IdleInv(s.start, s.disk, s.blocks, s.durable);
    assert Pins(s) == {} && s.blocks == [];
  }

  // ----- Crash and recovery -----

  /** Whatever the machine is doing, recovering the disk as it is gives the durable contents. */
  lemma RecoverableAlways(s: State)
    requires Inv(s)
    ensures Sound(s.disk, s.start) && SameHome(Recovered(s.disk, s.start), s.durable, s.start)
  {
    match s.phase
    case Idle =>
    case Committing(_, base, tx, k) =>
      if tx.blocks != [] {
        CrashAtomicity(base, s.start, tx, k);
      }
    case Recovering(_, base, _, k) =>
      RecoveryCrash(base, s.start, k);
  }

  lemma RestartShape(size: nat)
    ensures BufsShape(seq(NBUF, _ => EmptyBuf()), seq(NBUF, i => i), size)
  {
    var lru: seq<nat> := seq(NBUF, i => i);
    forall i | 0 <= i < NBUF ensures i in lru {
      assert lru[i] == i;
    }
  }

  lemma RestartInv(s: State, p: Pid)
    requires DiskShape(s.disk, |s.disk|) && DiskShape(s.durable, |s.disk|)
    requires s.start + LOGBLOCKS < |s.disk|
    requires Sound(s.disk, s.start) && SameHome(Recovered(s.disk, s.start), s.durable, s.start)
    ensures Inv(DoCrash(s, p))
  {
    var s' := DoCrash(s, p);
    RestartShape(|s.disk|);
    assert Reserved(map[]) == 0;
    assert RecoverInv(s'.start, s'.disk, s'.blocks, s'.flat, s'.durable, s.disk, false, 0);
  }

  lemma CrashKeeps(s: State, p: Pid)
    requires Inv(s)
    ensures Inv(DoCrash(s, p))
  {
    RecoverableAlways(s);
    RestartInv(s, p);
  }

  /** What recovery finds in the buffers it owns. */
  lemma RecoveryFinds(s: State, p: Pid, i: nat, b: int)
    requires CacheInv(s) && s.phase.Recovering? && OwnsBlock(s, p, i, b)
    ensures 0 <= b < |s.disk| && s.bufs[i].data == s.disk[b] && |s.bufs[i].data| == WORDS
  {
    assert DataOk(s.bufs[i], s.disk);
  }

  lemma RecoverReadKeeps(s: State, p: Pid, i: nat)
    requires Inv(s) && Enabled(s, RecoverRead(p, i))
    ensures Inv(Do(s, RecoverRead(p, i)))
  {
    RecoveryFinds(s, p, i, s.start);
    var s' := Do(s, RecoverRead(p, i));
    assert s.ops.Keys == {};
    assert s.ops == map[] && Reserved(map[]) == 0;
    assert Pins(s') == Pins(s) == {};
    assert RecoverInv(s'.start, s'.disk, s'.blocks, s'.flat, s'.durable, s.phase.base, true, s.phase.k);
  }

  /** The state after a write of recovery. */
  function Rewritten(s: State, i: nat, dst: nat, data: Block, blocks: seq<int>): State
    requires s.phase.Recovering? && i < |s.bufs| && dst < |s.disk|
  {
    s.(disk := s.disk[dst := data], bufs := s.bufs[i := s.bufs[i].(valid := true, data := data)], blocks := blocks,
       phase := Recovering(s.phase.p, s.phase.base, s.phase.started, s.phase.k + 1))
  }

  lemma RewrittenDone(s: State, i: nat, dst: nat, data: Block, blocks: seq<int>)
    requires s.phase.Recovering? && i < |s.bufs| && dst < |s.disk| && CacheInv(Rewritten(s, i, dst, data, blocks))
    requires RecoverInv(s.start, s.disk[dst := data], blocks, s.flat, s.durable, s.phase.base, s.phase.started,
                        s.phase.k + 1)
    ensures Inv(Rewritten(s, i, dst, data, blocks))
  {
  }

  lemma RecoverTo(s: State, i: nat, dst: nat, data: Block, blocks: seq<int>)
    requires CacheInv(s) && s.phase.Recovering? && i < NBUF && s.bufs[i].block == Some(dst) && s.bufs[i].valid
    requires |data| == WORDS && dst < |s.disk| && (blocks == s.blocks || blocks == [])
    ensures CacheInv(Rewritten(s, i, dst, data, blocks))
  {
    assert Pins(s) == {};
    FillBuf(s.bufs, i, s.bufs[i].(valid := true, data := data), {}, s.disk, s.disk[dst := data], s.ops, s.start,
            s.dirty);
    FillShape(s.bufs, i, data, s.lru, |s.disk|);
    WriteShape(s.disk, |s.disk|, dst, data);
    CacheFrom(Rewritten(s, i, dst, data, blocks), {}, s.disk[dst := data]);
  }

  lemma RecoverInstall(start: nat, disk: Disk, blocks: seq<int>, flat: Disk, durable: Disk, base: Disk, k: nat,
                       data: Block)
    requires RecoverInv(start, disk, blocks, flat, durable, base, true, k)
    requires k < |blocks| <= LOGBLOCKS && start + LOGBLOCKS < |disk| && data == disk[start + k + 1]
    ensures 0 <= blocks[k] < |disk|
    ensures RecoverInv(start, disk[blocks[k] := data], blocks, flat, durable, base, true, k + 1)
  {
  }

  lemma RecoverClear(start: nat, disk: Disk, blocks: seq<int>, flat: Disk, durable: Disk, base: Disk, k: nat,
                     data: Block)
    requires RecoverInv(start, disk, blocks, flat, durable, base, true, k)
    requires k == |blocks| && start < |disk| && |disk[start]| == WORDS && data == PutHead(disk[start], [])
    ensures RecoverInv(start, disk[start := data], [], flat, durable, base, true, k + 1)
  {
  }

  lemma RecoverSizes(s: State, p: Pid, i: nat, j: nat)
    requires Inv(s) && Enabled(s, RecoverWrite(p, i, j)) && s.phase.k < |s.blocks|
    ensures i < NBUF && j < NBUF && s.phase.Recovering? && s.phase.started
    ensures 0 <= s.blocks[s.phase.k] < |s.disk| && s.start + LOGBLOCKS < |s.disk| && |s.blocks| <= LOGBLOCKS
    ensures |s.bufs[i].data| == WORDS && |s.bufs[j].data| == WORDS
    ensures s.bufs[j].data == s.disk[s.start + s.phase.k + 1]
  {
    RecoveryFinds(s, p, j, s.start + s.phase.k + 1);
    RecoveryFinds(s, p, i, s.blocks[s.phase.k]);
  }

  lemma DoRecoverInstall(s: State, p: Pid, i: nat, j: nat)
    requires s.phase.Recovering? && s.phase.started && s.phase.k < |s.blocks| && i < |s.bufs| && j < |s.bufs|
    requires s.start < |s.disk| && 0 <= s.blocks[s.phase.k] < |s.disk| && |s.bufs[i].data| == WORDS && s.bufs[i].valid
    ensures DoRecoverWrite(s, p, i, j) == Rewritten(s, i, s.blocks[s.phase.k], s.bufs[j].data, s.blocks)
  {
  }

  lemma RecoverInstallKeeps(s: State, p: Pid, i: nat, j: nat)
    requires Inv(s) && Enabled(s, RecoverWrite(p, i, j)) && s.phase.k < |s.blocks|
    ensures Inv(DoRecoverWrite(s, p, i, j))
  {
    RecoverSizes(s, p, i, j);
    RecoverInstall(s.start, s.disk, s.blocks, s.flat, s.durable, s.phase.base, s.phase.k, s.bufs[j].data);
    RecoverTo(s, i, s.blocks[s.phase.k], s.bufs[j].data, s.blocks);
    RewrittenDone(s, i, s.blocks[s.phase.k], s.bufs[j].data, s.blocks);
    DoRecoverInstall(s, p, i, j);
  }

  lemma RecoverClearKeeps(s: State, p: Pid, i: nat, j: nat)
    requires Inv(s) && Enabled(s, RecoverWrite(p, i, j)) && s.phase.k == |s.blocks|
    ensures Inv(DoRecoverWrite(s, p, i, j))
  {
    RecoveryFinds(s, p, i, s.start);
    var data := PutHead(s.bufs[i].data, []);
    RecoverClear(s.start, s.disk, s.blocks, s.flat, s.durable, s.phase.base, s.phase.k, data);
    RecoverTo(s, i, s.start, data, []);
    RewrittenDone(s, i, s.start, data, []);
  }

  lemma RecoverDoneKeeps(s: State, p: Pid)
    requires Inv(s) && Enabled(s, RecoverDone(p))
    ensures Inv(s.(phase := Idle, flat := s.disk))
    ensures SameHome(s.disk, s.durable, s.start)
  {
    assert s.phase.k == |GetHead(s.phase.base[s.start])| + 1;
    RecoveryCompletes(s.phase.base, s.start);
    assert IdleInv(s.start, s.disk, s.blocks, s.durable);
  }
}
