/** The scheduler: nobody runnable is passed over twice by the same process from the same level or below. */
module ProcMlfq {
  import opened Prelude
  import opened ProcTable
  import opened ProcMachine
  import opened ProcSafety

  ghost predicate Stamped(s: State) {
    forall i :: 0 <= i < |s.procs| ==> s.procs[i].stamp <= s.ticket
  }

  /** The 32-bit stamps have not run out. */
  ghost predicate NoWrap(states: seq<State>) {
    forall k :: 0 <= k < |states| ==> states[k].ticket < MAX_STAMP
  }

  /** What a step may make of a slot that holds `p`: `started` if the step dispatches it. */
  predicate SlotStep(p: Proc, q: Proc, started: bool, boosted: bool, forking: bool, ticket: nat) {
    && (started ==> p.state == RUNNABLE && q.pid == p.pid && q.stamp == ticket)
    && (!started ==> q.stamp == p.stamp || q.stamp == 0)
    && (!started && p.state != UNUSED && q.pid == p.pid ==> q.stamp == p.stamp)
    && (!started && p.state == RUNNABLE ==>
          q.state == RUNNABLE && q.stamp == p.stamp && (p.level == 0 || boosted ==> q.level == 0))
    && (!forking && q.state != UNUSED ==> p.state != UNUSED && q.pid == p.pid)
  }

  ghost predicate SlotStepAt(s: State, a: Action, i: nat)
    requires Enabled(s, a)
  {
    var s' := Do(s, a);
    && |s'.procs| == |s.procs| && i < |s.procs|
    && SlotStep(s.procs[i], s'.procs[i], a.Dispatch? && s'.current == Some(i), s.needBoost && a.Dispatch?, a.ForkAlloc?,
                NextTicket(s.ticket))
  }

  lemma DispatchSlot(s: State, i: nat)
    requires |s.procs| == NPROC && s.current.None? && i < NPROC
    ensures SlotStepAt(s, Dispatch, i)
  {
  }

  lemma ForkSlot(s: State, a: Action, i: nat)
    requires Inv(s) && Enabled(s, a) && (a.ForkAlloc? || a.ForkLink? || a.ForkReady?) && i < NPROC
    ensures SlotStepAt(s, a, i)
  {
    var me := s.current.value;
    assert RunningOk(s.procs, s.current, me) && KontOk(s.procs, me) && PidOk(s.procs, s.nextpid, s.exited, s.reaped, i);
  }

  lemma ExitSlot(s: State, status: int, i: nat)
    requires |s.procs| == NPROC && s.init < NPROC && Enabled(s, Exit(status)) && i < NPROC
    requires s.procs[s.current.value].state == RUNNING && s.procs[s.current.value].parent != s.current
    ensures SlotStepAt(s, Exit(status), i)
  {
    OrphanedAt(s.procs, s.init, s.current.value, i);
  }

  lemma WaitSlot(s: State, copyOk: bool, i: nat)
    requires Inv(s) && Enabled(s, Wait(copyOk)) && i < NPROC
    ensures SlotStepAt(s, Wait(copyOk), i)
  {
    assert RunningOk(s.procs, s.current, s.current.value) && PidOk(s.procs, s.nextpid, s.exited, s.reaped, i);
  }

  lemma StepSlot(s: State, a: Action, i: nat)
    requires Inv(s) && Enabled(s, a) && i < NPROC
    ensures SlotStepAt(s, a, i)
  {
    if s.current.Some? {
      assert RunningOk(s.procs, s.current, s.current.value) && FamilyOk(s.procs, s.init, s.current.value);
    }
    match a
    case Dispatch => DispatchSlot(s, i);
    case ForkAlloc(_) => ForkSlot(s, a, i);
    case ForkLink => ForkSlot(s, a, i);
    case ForkReady => ForkSlot(s, a, i);
    case Exit(status) => ExitSlot(s, status, i);
    case Wait(copyOk) => WaitSlot(s, copyOk, i);
    case _ =>
  }

  lemma StampedStep(s: State, a: Action)
    requires Inv(s) && Enabled(s, a) && Stamped(s) && s.ticket < MAX_STAMP
    ensures Stamped(Do(s, a))
  {
    forall i: nat | i < NPROC ensures SlotStepAt(s, a, i) {
      StepSlot(s, a, i);
    }
    var s' := Do(s, a);
    assert s'.ticket == if a.Dispatch? && s'.current.Some? then s.ticket + 1 else s.ticket;
    forall i: nat | i < |s'.procs| ensures s'.procs[i].stamp <= s'.ticket {
      assert SlotStepAt(s, a, i);
    }
  }

  lemma {:induction false} RunStamped(states: seq<State>, acts: seq<Action>, k: nat)
    requires IsRun(states, acts) && NoWrap(states) && k < |states|
    ensures Stamped(states[k])
    decreases k
  {
    if k > 0 {
      RunStamped(states, acts, k - 1);
      RunInv(states, acts, k - 1);
      assert StepAt(states, acts, k - 1);
      StampedStep(states[k - 1], acts[k - 1]);
    }
  }

  // ----- One dispatch -----

  /** Step `k` starts process `q`. */
  ghost predicate Starts(states: seq<State>, acts: seq<Action>, k: nat, q: nat) {
    k < |acts| < |states| && acts[k] == Dispatch && states[k + 1].current == Some(q)
  }

  /** A dispatch picks a process whose level and stamp, after a boost if one is due, are lexicographically least
      among the runnable ones, and stamps it later than all. */
  lemma DispatchLeast(s: State, b: nat)
    requires Inv(s) && Enabled(s, Dispatch) && DoDispatch(s).current == Some(b)
    ensures b < NPROC && IsBest(BoostedTable(s), b)
    ensures DoDispatch(s).procs == BoostedTable(s)[b := Dispatched(BoostedTable(s)[b], NextTicket(s.ticket))]
    ensures DoDispatch(s).ticket == NextTicket(s.ticket)
  {
    var t := BoostedTable(s);
    BoostGentle(s);
    forall i: nat | i < |t| ensures t[i].level < MLFQ_LEVELS {
      assert RunningOk(t, s.current, i);
    }
    BestIsLeast(t, |t|);
  }

  /** With somebody runnable, a dispatch starts somebody. */
  lemma DispatchStarts(s: State, p: nat)
    requires Inv(s) && Enabled(s, Dispatch) && p < NPROC && s.procs[p].state == RUNNABLE
    ensures DoDispatch(s).current.Some?
  {
    var t := BoostedTable(s);
    BoostGentle(s);
    forall i: nat | i < |t| ensures t[i].level < MLFQ_LEVELS {
      assert RunningOk(t, s.current, i);
    }
    BestIsLeast(t, |t|);
    assert t[p].state == RUNNABLE;
  }

  // ----- Bypassing -----

  /** Process `p` is runnable in states `a` to `b`, and at level `level` in all but the first of them. */
  ghost predicate Waits(states: seq<State>, p: nat, level: nat, a: nat, b: nat) {
    && p < NPROC && b < |states|
    && (forall k :: a <= k <= b ==> |states[k].procs| == NPROC && states[k].procs[p].state == RUNNABLE)
    && (forall k :: a < k <= b ==> |states[k].procs| == NPROC && states[k].procs[p].level == level)
  }

  /** Slot `q` holds process `pid` in states `a` to `b`. */
  ghost predicate Holds(states: seq<State>, q: nat, pid: int, a: nat, b: nat) {
    && q < NPROC && b < |states| && pid != 0
    && forall k :: a <= k <= b ==> |states[k].procs| == NPROC && states[k].procs[q].pid == pid
  }

  lemma RunSlot(states: seq<State>, acts: seq<Action>, k: nat, i: nat)
    requires IsRun(states, acts) && k < |acts| && i < NPROC
    ensures Inv(states[k]) && Enabled(states[k], acts[k]) && states[k + 1] == Do(states[k], acts[k])
    ensures SlotStepAt(states[k], acts[k], i)
  {
    RunInv(states, acts, k);
    assert StepAt(states, acts, k);
    StepSlot(states[k], acts[k], i);
  }

  lemma {:induction false} WaiterKeepsStamp(states: seq<State>, acts: seq<Action>, p: nat, level: nat, a: nat, k: nat,
                                            b: nat)
    requires IsRun(states, acts) && Waits(states, p, level, a, b) && a <= k <= b
    ensures states[k].procs[p].stamp == states[a].procs[p].stamp
    decreases k
  {
    if a < k {
      WaiterKeepsStamp(states, acts, p, level, a, k - 1, b);
      RunSlot(states, acts, k - 1, p);
      RunInv(states, acts, k);
      assert RunningOk(states[k].procs, states[k].current, p);
      assert states[k - 1].procs[p].state == RUNNABLE && states[k].procs[p].state == RUNNABLE;
    }
  }

  lemma StampGrows(states: seq<State>, acts: seq<Action>, k: nat, q: nat)
    requires IsRun(states, acts) && NoWrap(states) && k < |acts| && q < NPROC
    ensures |states[k].procs| == NPROC == |states[k + 1].procs|
    ensures states[k + 1].procs[q].pid == states[k].procs[q].pid != 0 ==>
              states[k + 1].procs[q].stamp >= states[k].procs[q].stamp
  {
    RunSlot(states, acts, k, q);
    RunStamped(states, acts, k);
    assert PidOk(states[k].procs, states[k].nextpid, states[k].exited, states[k].reaped, q);
  }

  lemma {:induction false} HeldStampGrows(states: seq<State>, acts: seq<Action>, q: nat, pid: int, a: nat, k: nat,
                                          b: nat)
    requires IsRun(states, acts) && NoWrap(states) && Holds(states, q, pid, a, b) && a <= k <= b
    ensures states[k].procs[q].stamp >= states[a].procs[q].stamp
    decreases k
  {
    if a < k {
      HeldStampGrows(states, acts, q, pid, a, k - 1, b);
      StampGrows(states, acts, k - 1, q);
    }
  }

  /** While `p` stays runnable at one level, a process that was started before and is started again has by then
      risen above that level.  So nobody dispatched from that level or below passes `p` twice. */
  lemma BypassedOnce(states: seq<State>, acts: seq<Action>, p: nat, level: nat, q: nat, pid: int, i: nat, j: nat)
    requires IsRun(states, acts) && NoWrap(states) && i < j < |acts|
    requires Waits(states, p, level, i, j + 1) && Holds(states, q, pid, i + 1, j) && q != p
    requires Starts(states, acts, i, q) && Starts(states, acts, j, q)
    ensures |states[j + 1].procs| == NPROC && states[j + 1].procs[q].level < level
  {
    RunSlot(states, acts, i, q);
    RunStamped(states, acts, i);
    assert states[i + 1].procs[q].stamp == states[i].ticket + 1 > states[i].procs[p].stamp;
    WaiterKeepsStamp(states, acts, p, level, i, j, j + 1);
    HeldStampGrows(states, acts, q, pid, i + 1, j, j);
    RunSlot(states, acts, j, q);
    DispatchLeast(states[j], q);
    PassedOver(states[j], p, q);
    assert states[j].procs[p].state == RUNNABLE && states[j + 1].procs[p].level == level;
  }

  /** A runnable process that is passed over does not come before the one started. */
  lemma PassedOver(s: State, p: nat, q: nat)
    requires Inv(s) && Enabled(s, Dispatch) && DoDispatch(s).current == Some(q)
    requires p < NPROC && q < NPROC && p != q && s.procs[p].state == RUNNABLE
    ensures var s' := DoDispatch(s);
            && |s'.procs| == NPROC
            && (s'.procs[q].level < s'.procs[p].level
                || (s'.procs[q].level == s'.procs[p].level && s.procs[q].stamp <= s.procs[p].stamp))
  {
    DispatchLeast(s, q);
    var t := BoostedTable(s);
    assert t[p].state == RUNNABLE && t[p].stamp == s.procs[p].stamp && t[q].stamp == s.procs[q].stamp;
    assert !Before(t[p], t[q].level, t[q].stamp);
  }

  // ----- After a boost -----

  /** Process `p` is never started by steps `a` to `b`. */
  ghost predicate NeverStarted(states: seq<State>, acts: seq<Action>, p: nat, a: nat, b: nat) {
    forall d :: a <= d <= b ==> !Starts(states, acts, d, p)
  }

  /** A runnable process that is at level 0, or about to be boosted to it, waits there until it is started. */
  lemma {:induction false} WaitsUntilStarted(states: seq<State>, acts: seq<Action>, p: nat, a: nat, b: nat)
    requires IsRun(states, acts) && a <= b < |acts| && p < NPROC && |states[a].procs| == NPROC
    requires states[a].procs[p].state == RUNNABLE
    requires states[a].procs[p].level == 0 || (states[a].needBoost && acts[a] == Dispatch)
    requires NeverStarted(states, acts, p, a, b)
    ensures Waits(states, p, 0, a, b + 1)
    decreases b
  {
    if a < b {
      WaitsUntilStarted(states, acts, p, a, b - 1);
    }
    assert !Starts(states, acts, b, p);
    StaysRunnable(states, acts, b, p);
  }

  lemma StaysRunnable(states: seq<State>, acts: seq<Action>, k: nat, p: nat)
    requires IsRun(states, acts) && k < |acts| && p < NPROC && |states[k].procs| == NPROC
    requires states[k].procs[p].state == RUNNABLE && !Starts(states, acts, k, p)
    ensures |states[k + 1].procs| == NPROC && states[k + 1].procs[p].state == RUNNABLE
    ensures states[k].procs[p].level == 0 || (states[k].needBoost && acts[k] == Dispatch) ==>
              states[k + 1].procs[p].level == 0
  {
    RunSlot(states, acts, k, p);
  }

  /** A process is where it was, or has just been created with the next process id. */
  lemma PidStep(s: State, a: Action, i: nat)
    requires Inv(s) && Enabled(s, a) && i < NPROC
    ensures var s' := Do(s, a);
            && |s'.procs| == NPROC
            && (s'.procs[i].state != UNUSED ==>
                  || (s.procs[i].state != UNUSED && s'.procs[i].pid == s.procs[i].pid)
                  || (a.ForkAlloc? && s'.procs[i].pid == s.nextpid))
            && s.nextpid <= s'.nextpid <= s.nextpid + (if a.ForkAlloc? then 1 else 0)
  {
    StepSlot(s, a, i);
  }

  lemma RunPid(states: seq<State>, acts: seq<Action>, k: nat, i: nat)
    requires IsRun(states, acts) && k < |acts| && i < NPROC
    ensures |states[k].procs| == NPROC == |states[k + 1].procs|
    ensures states[k + 1].procs[i].state != UNUSED ==>
              || (states[k].procs[i].state != UNUSED && states[k + 1].procs[i].pid == states[k].procs[i].pid)
              || states[k + 1].procs[i].pid == states[k].nextpid
    ensures states[k].nextpid <= states[k + 1].nextpid <= states[k].nextpid + (if acts[k].ForkAlloc? then 1 else 0)
  {
    RunInv(states, acts, k);
    assert StepAt(states, acts, k);
    PidStep(states[k], acts[k], i);
  }

  /** How many of the steps from `a` up to `b` create a process. */
  function Forks(acts: seq<Action>, a: nat, b: nat): nat
    requires a <= b <= |acts|
    decreases b
  {
    if a == b then 0 else Forks(acts, a, b - 1) + if acts[b - 1].ForkAlloc? then 1 else 0
  }

  /** Each process created takes one process id. */
  lemma {:induction false} PidsTaken(states: seq<State>, acts: seq<Action>, a: nat, b: nat)
    requires IsRun(states, acts) && a <= b <= |acts|
    ensures states[a].nextpid <= states[b].nextpid <= states[a].nextpid + Forks(acts, a, b)
    decreases b
  {
    if a < b {
      PidsTaken(states, acts, a, b - 1);
      RunPid(states, acts, b - 1, 0);
    }
  }

  /** A process that is in a slot has been there since state `a`, or was created after it. */
  lemma {:induction false} PidOrigin(states: seq<State>, acts: seq<Action>, q: nat, a: nat, b: nat)
    requires IsRun(states, acts) && a <= b < |states| && q < NPROC && |states[b].procs| == NPROC
    requires states[b].procs[q].state != UNUSED
    ensures states[a].nextpid <= states[b].procs[q].pid || Holds(states, q, states[b].procs[q].pid, a, b)
    decreases b
  {
    RunInv(states, acts, b);
    assert PidOk(states[b].procs, states[b].nextpid, states[b].exited, states[b].reaped, q);
    if a < b {
      RunPid(states, acts, b - 1, q);
      PidsTaken(states, acts, a, b - 1);
      if states[b].procs[q].pid != states[b - 1].nextpid {
        PidOrigin(states, acts, q, a, b - 1);
      }
    }
  }

  predicate Clash(xs: seq<int>, i: nat, j: nat) {
    i < |xs| && j < |xs| && xs[i] == xs[j]
  }

  /** Numbers without a clash are no more than a set that holds them all. */
  lemma {:induction false} Distinct(xs: seq<int>, all: set<int>)
    requires forall i: nat, j: nat :: i < j < |xs| ==> !Clash(xs, i, j)
    requires forall i :: 0 <= i < |xs| ==> xs[i] in all
    ensures |xs| <= |all|
    decreases |xs|
  {
    if xs != [] {
      var n := |xs| - 1;
      forall i: nat, j: nat | i < j < n ensures !Clash(xs[..n], i, j) {
        assert !Clash(xs, i, j);
      }
      forall i: nat | i < n ensures xs[..n][i] in all - {xs[n]} {
        assert !Clash(xs, i, n);
      }
      Distinct(xs[..n], all - {xs[n]});
    }
  }

  ghost function PidRange(lo: int, n: nat): (r: set<int>)
    ensures |r| == n && forall x :: x in r <==> lo <= x < lo + n
  {
    if n == 0 then {} else PidRange(lo, n - 1) + {lo + n - 1}
  }

  /** The process ids in the first `n` slots, slot `p` left out. */
  ghost function PidsOf(t: Table, p: nat, n: nat): (r: set<int>)
    requires n <= |t|
    ensures |r| <= if p < n then n - 1 else n
    ensures forall i :: 0 <= i < n && i != p ==> t[i].pid in r
  {
    if n == 0 then {} else PidsOf(t, p, n - 1) + if n - 1 == p then {} else {t[n - 1].pid}
  }

  /** The steps `picks` are dispatches, in order, from step `a` on. */
  ghost predicate Dispatches(acts: seq<Action>, picks: seq<nat>, a: nat) {
    && (forall i :: 0 <= i < |picks| ==> a <= picks[i] < |acts| && acts[picks[i]] == Dispatch)
    && (forall i, j :: 0 <= i < j < |picks| ==> picks[i] < picks[j])
  }

  /** Step `k` starts the process with id `pid`, in some slot other than `p`. */
  ghost predicate StartsPid(states: seq<State>, acts: seq<Action>, k: nat, p: nat, pid: int) {
    exists q: nat :: StartsIn(states, acts, k, p, q, pid)
  }

  ghost predicate StartsIn(states: seq<State>, acts: seq<Action>, k: nat, p: nat, q: nat, pid: int) {
    && Starts(states, acts, k, q) && q != p && q < NPROC && |states[k + 1].procs| == NPROC
    && states[k + 1].procs[q].pid == pid && states[k + 1].procs[q].state == RUNNING
  }

  /** A dispatch that passes a runnable process over starts another. */
  lemma PassedBy(states: seq<State>, acts: seq<Action>, k: nat, p: nat) returns (pid: int)
    requires IsRun(states, acts) && k < |acts| && acts[k] == Dispatch && p < NPROC && |states[k].procs| == NPROC
    requires states[k].procs[p].state == RUNNABLE && !Starts(states, acts, k, p)
    ensures StartsPid(states, acts, k, p, pid)
  {
    RunInv(states, acts, k);
    RunInv(states, acts, k + 1);
    assert StepAt(states, acts, k);
    DispatchStarts(states[k], p);
    var q := states[k + 1].current.value;
    assert RunningOk(states[k + 1].procs, states[k + 1].current, q);
    pid := states[k + 1].procs[q].pid;
    assert StartsIn(states, acts, k, p, q, pid);
  }

  /** The process started was in the table in state `a`, or was created since. */
  lemma PidKnown(states: seq<State>, acts: seq<Action>, p: nat, a: nat, k: nat, b: nat, pid: int)
    requires IsRun(states, acts) && a <= k < b <= |acts| && |states[a].procs| == NPROC
    requires StartsPid(states, acts, k, p, pid)
    ensures pid in PidsOf(states[a].procs, p, NPROC) || states[a].nextpid <= pid < states[b].nextpid
  {
    var q: nat :| StartsIn(states, acts, k, p, q, pid);
    PidOrigin(states, acts, q, a, k + 1);
    RunInv(states, acts, k + 1);
    assert PidOk(states[k + 1].procs, states[k + 1].nextpid, states[k + 1].exited, states[k + 1].reaped, q);
    PidsTaken(states, acts, k + 1, b);
  }

  /** Two dispatches that pass `p` over start different processes. */
  lemma DifferentStarts(states: seq<State>, acts: seq<Action>, p: nat, i: nat, j: nat, pid: int)
    requires IsRun(states, acts) && NoWrap(states) && i < j < |acts|
    requires Waits(states, p, 0, i, j + 1) && StartsPid(states, acts, i, p, pid)
    ensures !StartsPid(states, acts, j, p, pid)
  {
    if StartsPid(states, acts, j, p, pid) {
      var q: nat :| StartsIn(states, acts, i, p, q, pid);
      var r: nat :| StartsIn(states, acts, j, p, r, pid);
      var c := states[i + 1];
      RunInv(states, acts, i + 1);
      assert PidOk(c.procs, c.nextpid, c.exited, c.reaped, q);
      PidOrigin(states, acts, r, i + 1, j + 1);
      assert Holds(states, r, pid, i + 1, j + 1);
      assert PidOk(c.procs, c.nextpid, c.exited, c.reaped, r);
      assert !SamePid(c.procs, q, r) || q >= r;
      assert !SamePid(c.procs, r, q) || r >= q;
      BypassedOnce(states, acts, p, 0, q, pid, i, j);
    }
  }

  /** The ids of the processes that the dispatches `picks` start in place of `p`. */
  lemma {:induction false} PassersBy(states: seq<State>, acts: seq<Action>, p: nat, a: nat, b: nat, picks: seq<nat>)
    returns (pids: seq<int>)
    requires IsRun(states, acts) && Waits(states, p, 0, a, b + 1) && NeverStarted(states, acts, p, a, b)
    requires Dispatches(acts, picks, a) && forall i :: 0 <= i < |picks| ==> picks[i] <= b
    ensures |pids| == |picks| && forall i :: 0 <= i < |picks| ==> StartsPid(states, acts, picks[i], p, pids[i])
    decreases |picks|
  {
    pids := [];
    if picks != [] {
      var n := |picks| - 1;
      pids := PassersBy(states, acts, p, a, b, picks[..n]);
      assert !Starts(states, acts, picks[n], p);
      var pid := PassedBy(states, acts, picks[n], p);
      pids := pids + [pid];
    }
  }

  /** While `p` waits, it is passed over fewer than NPROC times, plus once for every process created meanwhile. */
  lemma BypassesBounded(states: seq<State>, acts: seq<Action>, p: nat, a: nat, b: nat, picks: seq<nat>)
    requires IsRun(states, acts) && NoWrap(states) && a <= b < |acts|
    requires Waits(states, p, 0, a, b + 1) && NeverStarted(states, acts, p, a, b)
    requires Dispatches(acts, picks, a) && forall i :: 0 <= i < |picks| ==> picks[i] <= b
    ensures |picks| < NPROC + Forks(acts, a, b + 1)
  {
    var pids := PassersBy(states, acts, p, a, b, picks);
    forall i: nat, j: nat | i < j < |pids| ensures !Clash(pids, i, j) {
      DifferentStarts(states, acts, p, picks[i], picks[j], pids[i]);
    }
    PidsTaken(states, acts, a, b + 1);
    var known := PidsOf(states[a].procs, p, NPROC);
    var made := PidRange(states[a].nextpid, states[b + 1].nextpid - states[a].nextpid);
    forall i | 0 <= i < |pids| ensures pids[i] in known + made {
      PidKnown(states, acts, p, a, picks[i], b + 1, pids[i]);
    }
    Distinct(pids, known + made);
  }

  /** Once at level 0, or boosted to it by the next dispatch, a runnable process is started within NPROC dispatches,
      plus one for every process created meanwhile. */
  lemma RunsWithinNproc(states: seq<State>, acts: seq<Action>, p: nat, a: nat, picks: seq<nat>) returns (d: nat)
    requires IsRun(states, acts) && NoWrap(states) && a < |acts| && p < NPROC && |states[a].procs| == NPROC
    requires states[a].procs[p].state == RUNNABLE
    requires states[a].procs[p].level == 0 || (states[a].needBoost && acts[a] == Dispatch)
    requires picks != [] && Dispatches(acts, picks, a)
    requires |picks| >= NPROC + Forks(acts, a, picks[|picks| - 1] + 1)
    ensures a <= d <= picks[|picks| - 1] && Starts(states, acts, d, p)
  {
    var b := picks[|picks| - 1];
    if NeverStarted(states, acts, p, a, b) {
      WaitsUntilStarted(states, acts, p, a, b);
      BypassesBounded(states, acts, p, a, b, picks);
      d := a;
      assert false;
    } else {
      d :| a <= d <= b && Starts(states, acts, d, p);
    }
  }

  // ----- Time slices -----

  /** A process after `n` clock ticks in a row. */
  function AfterTicks(p: Proc, n: nat): Proc {
    if n == 0 then p else Charged(AfterTicks(p, n - 1))
  }

  /** A fresh time slice lasts its quantum of ticks: until then the level holds, then it drops by one if it can. */
  lemma {:induction false} SliceUse(p: Proc, n: nat)
    requires p.ticks == 0 && p.level < MLFQ_LEVELS && n <= Quantum(p.level)
    ensures n < Quantum(p.level) ==> AfterTicks(p, n) == p.(ticks := n)
    ensures n == Quantum(p.level) ==>
              AfterTicks(p, n) == p.(level := if p.level < MLFQ_LEVELS - 1 then p.level + 1 else p.level)
  {
    if n > 0 {
      SliceUse(p, n - 1);
    }
  }

  /** A process that gives up the processor before its slice is over rises by one level with a fresh slice, and one that
      uses up a slice first and then gives up is back where it was. */
  lemma EarlyExitRises(p: Proc, n: nat)
    requires p.ticks == 0 && p.level < MLFQ_LEVELS && n <= Quantum(p.level)
    ensures n < Quantum(p.level) ==> Rewarded(AfterTicks(p, n)) == p.(level := if p.level > 0 then p.level - 1 else 0)
    ensures n == Quantum(p.level) && p.level < MLFQ_LEVELS - 1 ==> Rewarded(AfterTicks(p, n)) == p
  {
    SliceUse(p, n);
  }
}
