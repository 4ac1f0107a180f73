/** What the log and the cache promise over every run. */
module LogCacheRuns {
  import opened Prelude
  import opened RedoLog
  import opened LogCache
  import opened LogCacheProof

  lemma BufferStepKeeps(s: State, a: Action)
    requires Inv(s) && Enabled(s, a)
    requires a.Bget? || a.Acquire? || a.ReadDisk? || a.Modify? || a.LogWrite? || a.Release?
    ensures Inv(Do(s, a))
  {
    match a
    case Bget(p, b) => BgetKeeps(s, p, b);
    case Acquire(p, i) => AcquireKeeps(s, p, i);
    case ReadDisk(p, i) => ReadDiskKeeps(s, p, i);
    case Modify(p, i, data) => ModifyKeeps(s, p, i, data);
    case LogWrite(p, i) => LogWriteKeeps(s, p, i);
    case Release(p, i) => ReleaseKeeps(s, p, i);
  }

  lemma LogStepKeeps(s: State, a: Action)
    requires Inv(s) && Enabled(s, a)
    requires a.BeginOp? || a.EndOp? || a.CommitWrite? || a.CommitDone? || a.Crash?
    ensures Inv(Do(s, a))
  {
    match a
    case BeginOp(p) => BeginOpKeeps(s, p);
    case EndOp(p) => EndOpKeeps(s, p);
    case CommitWrite(p, i, j) => CommitWriteKeeps(s, p, i, j);
    case CommitDone(p) => CommitDoneKeeps(s, p);
    case Crash(p) => CrashKeeps(s, p);
  }

  lemma RecoveryStepKeeps(s: State, a: Action)
    requires Inv(s) && Enabled(s, a)
    requires a.RecoverRead? || a.RecoverWrite? || a.RecoverDone?
    ensures Inv(Do(s, a))
  {
    match a
    case RecoverRead(p, i) => RecoverReadKeeps(s, p, i);
    case RecoverWrite(p, i, j) =>
      if s.phase.k < |s.blocks| {
        RecoverInstallKeeps(s, p, i, j);
      } else {
        RecoverClearKeeps(s, p, i, j);
      }
    case RecoverDone(p) => RecoverDoneKeeps(s, p);
  }

  /** Every step keeps the invariant. */
  lemma StepKeeps(s: State, a: Action)
    requires Inv(s) && Enabled(s, a)
    ensures Inv(Do(s, a))
  {
    if a.Bget? || a.Acquire? || a.ReadDisk? || a.Modify? || a.LogWrite? || a.Release? {
      BufferStepKeeps(s, a);
    } else if a.RecoverRead? || a.RecoverWrite? || a.RecoverDone? {
      RecoveryStepKeeps(s, a);
    } else {
      LogStepKeeps(s, a);
    }
  }

  // ----- Runs -----

  /** A machine that has just been switched on with a disk that recovery can start from. */
  ghost predicate Init(s: State) {
    && s.start + LOGBLOCKS < |s.disk| && DiskShape(s.disk, |s.disk|) && Sound(s.disk, s.start)
    && s.durable == Recovered(s.disk, s.start)
    && exists p :: s == DoCrash(s, p)
  }

  ghost predicate Next(s: State, a: Action, s': State) {
    Shape(s) && Enabled(s, a) && s' == Do(s, a)
  }

  ghost predicate StepAt(states: seq<State>, acts: seq<Action>, i: nat)
    requires |states| == |acts| + 1 && i < |acts|
  {
    Next(states[i], acts[i], states[i + 1])
  }

  ghost predicate IsRun(states: seq<State>, acts: seq<Action>) {
    && |states| == |acts| + 1 && Init(states[0])
    && forall i :: 0 <= i < |acts| ==> StepAt(states, acts, i)
  }

  lemma InitInv(s: State)
    requires Init(s)
    ensures Inv(s)
  {
    InstallSound(s.disk, s.start, GetHead(s.disk[s.start]), |GetHead(s.disk[s.start])|);
    var p :| s == DoCrash(s, p);
    RestartInv(s, p);
  }

  lemma NextKeeps(s: State, a: Action, s': State)
    requires Inv(s) && Next(s, a, s')
    ensures Inv(s')
  {
    StepKeeps(s, a);
  }

  lemma {:induction false} RunInv(states: seq<State>, acts: seq<Action>, i: nat)
    requires IsRun(states, acts) && i < |states|
    ensures Inv(states[i])
    decreases i
  {
    if i == 0 {
      InitInv(states[0]);
    } else {
      RunInv(states, acts, i - 1);
      assert StepAt(states, acts, i - 1);
      NextKeeps(states[i - 1], acts[i - 1], states[i]);
    }
  }

  // ----- What readers see -----

  /** Outside recovery, a process that holds a valid buffer reads the flat disk. */
  lemma ReadersSeeFlat(s: State, p: Pid, i: nat, b: int)
    requires Inv(s) && !s.phase.Recovering? && OwnsBlock(s, p, i, b)
    ensures 0 <= b < |s.flat| && s.bufs[i].data == s.flat[b]
  {
    assert DataOk(s.bufs[i], s.flat);
  }

  /** Outside recovery, a valid buffer that is unlocked and whose block is not logged is as on disk. */
  lemma UnloggedIsOnDisk(s: State, i: nat)
    requires Inv(s) && !s.phase.Recovering? && i < NBUF
    requires s.bufs[i].valid && s.bufs[i].owner == None && s.bufs[i].block.Some? && s.bufs[i].block.value !in s.blocks
    ensures s.bufs[i].data == s.disk[s.bufs[i].block.value]
  {
    assert DataOk(s.bufs[i], s.flat);
    NotHeld(s.bufs, i, s.ops);
    assert s.bufs[i].block.value !in s.dirty;
    assert s.bufs[i].block.value !in Pins(s);
  }

  /** A logged block stays cached, in one buffer and with its latest contents, until it is installed. */
  lemma LoggedStaysCached(s: State, b: int) returns (i: nat)
    requires Inv(s) && b in Pins(s)
    ensures 0 <= b < |s.flat| && i < NBUF && s.bufs[i].block == Some(b) && s.bufs[i].valid
    ensures s.bufs[i].data == s.flat[b]
    ensures s.bufs[i].refcnt > 0
    ensures forall j :: 0 <= j < NBUF && j != i ==> s.bufs[j].block != Some(b)
  {
    assert Cached(s.bufs, b);
    i :| HoldsAt(s.bufs, i, b);
    assert DataOk(s.bufs[i], Expected(s)) && RefsOk(s.bufs[i], Pins(s));
    forall j: nat | j < NBUF && j != i ensures s.bufs[j].block != Some(b) {
      OneBuffer(s.bufs, i, j);
    }
  }

  /** log_write never finds the log full, as long as each operation logs fewer blocks than it reserves. */
  lemma LogNeverFull(s: State, p: Pid, i: nat)
    requires Inv(s) && Enabled(s, LogWrite(p, i))
    ensures |s.blocks| < LOGBLOCKS && s.outstanding >= 1
  {
    LogWriteKeeps(s, p, i);
    InOpIsIdle(s, p);
  }

  /** A commit runs alone: end_op never finds one running, and nothing changes under it. */
  lemma CommitRunsAlone(s: State)
    requires Inv(s) && s.phase.Committing?
    ensures s.outstanding == 0 && s.ops == map[] && s.dirty == {}
  {
    assert s.ops.Keys == {};
    forall b ensures b !in s.dirty {
      assert !HeldInOp(s.bufs, s.ops, b);
    }
  }

  /** Whoever sleeps in begin_op has a running operation or commit that will wake it. */
  lemma SleeperHasWaker(s: State, p: Pid)
    requires Inv(s) && p in s.asleep
    ensures s.ops != map[] || s.phase.Committing?
  {
    assert s.asleep != {};
    assert s.ops == map[] ==> |s.ops| == 0;
  }

  // ----- Refinement of an atomic disk -----

  /** The step is the header write that commits. */
  ghost predicate IsCommitPoint(s: State, a: Action) {
    a.CommitWrite? && s.phase.Committing? && s.phase.k == |s.phase.tx.blocks|
  }

  /** On home blocks a step writes one block of the flat disk, makes the flat disk durable, falls back to the
      durable disk, or does nothing. */
  ghost predicate AtomicDiskStep(s: State, a: Action, s': State) {
    if a.Modify? then
      && a.i < |s.bufs| && s.bufs[a.i].block.Some? && s.bufs[a.i].block.value < |s.flat|
      && s'.flat == s.flat[s.bufs[a.i].block.value := a.data] && s'.durable == s.durable
    else if IsCommitPoint(s, a) then SameHome(s'.flat, s.flat, s.start) && SameHome(s'.durable, s.flat, s.start)
    else if a.Crash? then s'.flat == s.durable && s'.durable == s.durable
    else SameHome(s'.flat, s.flat, s.start) && s'.durable == s.durable
  }

  lemma LogAreaWrite(d: Disk, start: nat, dst: nat, data: Block)
    requires dst < |d| && InLog(start, dst)
    ensures SameHome(d[dst := data], d, start)
  {
  }

  lemma CommitFlat(s: State, p: Pid, i: nat, j: nat)
    requires Inv(s) && Enabled(s, CommitWrite(p, i, j))
    ensures SameHome(DoCommitWrite(s, p, i, j).flat, s.flat, s.start)
  {
    var n, k := |s.phase.tx.blocks|, s.phase.k;
    var dst := CommitDst(s.start, s.phase.tx, k);
    if n < k < 2 * n + 1 {
      InstallFacts(s, p, i, j, dst);
      DoInstall(s, p, i, j, dst);
    } else {
      LogAreaWrite(s.flat, s.start, dst, DoCommitWrite(s, p, i, j).flat[dst]);
    }
  }

  /** The whole machine refines an atomic disk. */
  lemma Refinement(s: State, a: Action)
    requires Inv(s) && Enabled(s, a)
    ensures AtomicDiskStep(s, a, Do(s, a))
  {
    if a.CommitWrite? {
      CommitRefines(s, a);
    } else if a.Crash? || a.RecoverRead? || a.RecoverWrite? || a.RecoverDone? {
      RecoveryRefines(s, a);
    }
  }

  lemma CommitRefines(s: State, a: Action)
    requires Inv(s) && Enabled(s, a) && a.CommitWrite?
    ensures AtomicDiskStep(s, a, Do(s, a))
  {
    CommitFlat(s, a.p, a.i, a.j);
  }

  lemma RecoveryRefines(s: State, a: Action)
    requires Inv(s) && Enabled(s, a) && (a.Crash? || a.RecoverRead? || a.RecoverWrite? || a.RecoverDone?)
    ensures AtomicDiskStep(s, a, Do(s, a))
  {
    if a.RecoverDone? {
      RecoverDoneKeeps(s, a.p);
    }
  }

  /** The flat disk at the last commit point before state `i`, or the disk recovered at the start. */
  ghost function LastCommitted(states: seq<State>, acts: seq<Action>, i: nat): Disk
    requires |states| == |acts| + 1 && i < |states|
  {
    if i == 0 then states[0].durable
    else if IsCommitPoint(states[i - 1], acts[i - 1]) then states[i - 1].flat
    else LastCommitted(states, acts, i - 1)
  }

  lemma DurableStep(s: State, a: Action, s': State)
    requires Inv(s) && Next(s, a, s')
    ensures s'.start == s.start
    ensures SameHome(s'.durable, if IsCommitPoint(s, a) then s.flat else s.durable, s.start)
  {
    if a.CommitWrite? {
      CommitRefines(s, a);
    } else {
      DurableStays(s, a);
    }
  }

  /** Only the writes of a commit change what is durable. */
  lemma DurableStays(s: State, a: Action)
    requires Shape(s) && Enabled(s, a) && !a.CommitWrite?
    ensures Do(s, a).start == s.start && Do(s, a).durable == s.durable
  {
  }

  lemma RunDurableStep(states: seq<State>, acts: seq<Action>, i: nat)
    requires IsRun(states, acts) && 0 < i < |states|
    ensures states[i].start == states[i - 1].start
    ensures SameHome(states[i].durable,
                     if IsCommitPoint(states[i - 1], acts[i - 1]) then states[i - 1].flat else states[i - 1].durable,
                     states[i - 1].start)
  {
    RunInv(states, acts, i - 1);
    assert StepAt(states, acts, i - 1);
    DurableStep(states[i - 1], acts[i - 1], states[i]);
  }

  lemma {:induction false} DurableIsLastCommitted(states: seq<State>, acts: seq<Action>, i: nat)
    requires IsRun(states, acts) && i < |states|
    ensures states[i].start == states[0].start
    ensures SameHome(states[i].durable, LastCommitted(states, acts, i), states[0].start)
    decreases i
  {
    if i > 0 {
      DurableIsLastCommitted(states, acts, i - 1);
      RunDurableStep(states, acts, i);
      var last := if IsCommitPoint(states[i - 1], acts[i - 1]) then states[i - 1].flat else states[i - 1].durable;
      SameHomeTransitive(states[i].durable, last, LastCommitted(states, acts, i), states[0].start);
    }
  }

  lemma SameHomeTransitive(d: Disk, e: Disk, f: Disk, start: nat)
    requires SameHome(d, e, start) && SameHome(e, f, start)
    ensures SameHome(d, f, start)
  {
  }

  /** Over every interleaving, a crash at any point, also inside recovery, recovers exactly the contents that
      everyone saw at the last commit point. */
  lemma CrashSafety(states: seq<State>, acts: seq<Action>, i: nat)
    requires IsRun(states, acts) && i < |states|
    ensures Sound(states[i].disk, states[i].start)
    ensures SameHome(Recovered(states[i].disk, states[i].start), LastCommitted(states, acts, i), states[i].start)
  {
    RunInv(states, acts, i);
    RecoverableAlways(states[i]);
    DurableIsLastCommitted(states, acts, i);
  }
}
