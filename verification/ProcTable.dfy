/** The process table and the scans over it: wakeup, reparent, the boost, the scheduler's choice. */
module ProcTable {
  import opened Prelude

  const NPROC: nat := 64
  const MLFQ_LEVELS: nat := 3
  const MAX_STAMP: nat := 0xffff_ffff

  datatype ProcState = UNUSED | USED | SLEEPING | RUNNABLE | RUNNING | ZOMBIE

  /** What a process sleeps on: nothing, a process (as kwait does), or anything else. */
  datatype Chan = NoChan | ProcChan(slot: nat) | Other(id: nat)

  /** Where a process is inside the kernel, between scheduling points. */
  datatype Kont =
    | Ready
    | Forked(child: nat)     // child allocated and copied, not yet linked to its parent
    | Parented(child: nat)   // child linked, not yet runnable
    | InWait                 // inside the loop of kwait

  datatype Proc = Proc(
    state: ProcState,
    chan: Chan,
    killed: bool,
    xstate: int,
    pid: int,
    parent: Option<nat>,
    level: nat,
    ticks: nat,
    stamp: nat,
    kont: Kont)

  type Table = seq<Proc>

  function Unused(): Proc {
    Proc(UNUSED, NoChan, false, 0, 0, None, 0, 0, 0, Ready)
  }

  // ----- What each scan does to one process -----

  function Woken(p: Proc, chan: Chan, isMe: bool): Proc {
    if !isMe && p.state == SLEEPING && p.chan == chan then p.(state := RUNNABLE) else p
  }

  function Boosted(p: Proc): Proc {
    if p.state != UNUSED then p.(level := 0, ticks := 0) else p
  }

  function Adopted(p: Proc, from: nat, to: nat): Proc {
    if p.parent == Some(from) then p.(parent := Some(to)) else p
  }

  // ----- The scans -----

  function WakeAll(t: Table, chan: Chan, me: Option<nat>): (r: Table)
    ensures |r| == |t| && forall i :: 0 <= i < |t| ==> r[i] == Woken(t[i], chan, me == Some(i))
  {
    seq(|t|, i requires 0 <= i < |t| => Woken(t[i], chan, me == Some(i)))
  }

  function BoostAll(t: Table): (r: Table)
    ensures |r| == |t| && forall i :: 0 <= i < |t| ==> r[i] == Boosted(t[i])
  {
    seq(|t|, i requires 0 <= i < |t| => Boosted(t[i]))
  }

  predicate HasChild(t: Table, p: nat) {
    exists i :: 0 <= i < |t| && t[i].parent == Some(p)
  }

  /** Children of `from` go to `to`, which is woken if there are any. */
  function Reparent(t: Table, from: nat, to: nat, me: Option<nat>): (r: Table)
    ensures |r| == |t|
    ensures forall i :: 0 <= i < |t| ==>
              r[i] == Woken(Adopted(t[i], from, to), ProcChan(to), !HasChild(t, from) || me == Some(i))
  {
    seq(|t|, i requires 0 <= i < |t| =>
              Woken(Adopted(t[i], from, to), ProcChan(to), !HasChild(t, from) || me == Some(i)))
  }

  /** What the reparenting loop has made of the table after `k` slots. */
  function ReparentedTo(t: Table, from: nat, to: nat, me: Option<nat>, k: nat): (r: Table)
    requires k <= |t|
    ensures |r| == |t|
  {
    if k == 0 then t
    else
      ReparentOne(ReparentedTo(t, from, to, me, k - 1), from, to, me, k - 1)
  }

  /** One round of the reparenting loop. */
  function ReparentOne(r: Table, from: nat, to: nat, me: Option<nat>, j: nat): (r': Table)
    requires j < |r|
    ensures |r'| == |r|
  {
    if r[j].parent == Some(from) then WakeAll(r[j := r[j].(parent := Some(to))], ProcChan(to), me) else r
  }

  /** Some of the first `k` slots holds a child of `p`. */
  predicate HasChildIn(t: Table, k: nat, p: nat)
    requires k <= |t|
  {
    exists i :: 0 <= i < k && t[i].parent == Some(p)
  }

  /** What a round makes of slot `i`, when `quiet` says that no earlier slot held a child. */
  lemma ReparentedOne(t: Table, r: Table, from: nat, to: nat, me: Option<nat>, j: nat, i: nat, quiet: bool)
    requires |r| == |t| && j < |t| && i < |t|
    requires r[j] == Woken(t[j], ProcChan(to), quiet || me == Some(j))
    requires r[i] == Woken(if i < j then Adopted(t[i], from, to) else t[i], ProcChan(to), quiet || me == Some(i))
    ensures ReparentOne(r, from, to, me, j)[i]
         == Woken(if i <= j then Adopted(t[i], from, to) else t[i], ProcChan(to),
                  (quiet && t[j].parent != Some(from)) || me == Some(i))
  {
  }

  lemma {:induction false} ReparentedAt(t: Table, from: nat, to: nat, me: Option<nat>, k: nat, i: nat)
    requires k <= |t| && i < |t|
    ensures ReparentedTo(t, from, to, me, k)[i]
         == Woken(if i < k then Adopted(t[i], from, to) else t[i], ProcChan(to),
                  !HasChildIn(t, k, from) || me == Some(i))
  {
    if k > 0 {
      ReparentedAt(t, from, to, me, k - 1, i);
      ReparentedAt(t, from, to, me, k - 1, k - 1);
      ReparentedOne(t, ReparentedTo(t, from, to, me, k - 1), from, to, me, k - 1, i, !HasChildIn(t, k - 1, from));
    }
  }

  lemma ReparentedAll(t: Table, from: nat, to: nat, me: Option<nat>)
    ensures ReparentedTo(t, from, to, me, |t|) == Reparent(t, from, to, me)
  {
    assert HasChildIn(t, |t|, from) == HasChild(t, from);
    forall i: nat | i < |t|
      ensures ReparentedTo(t, from, to, me, |t|)[i] == Reparent(t, from, to, me)[i]
    {
      ReparentedAt(t, from, to, me, |t|, i);
    }
  }

  /** The first slot that is not in use. */
  function FirstUnused(t: Table): (r: Option<nat>)
    ensures r.Some? ==> r.value < |t| && t[r.value].state == UNUSED
    ensures r.Some? ==> forall i :: 0 <= i < r.value ==> t[i].state != UNUSED
    ensures r.None? ==> forall i :: 0 <= i < |t| ==> t[i].state != UNUSED
  {
    FirstUnusedFrom(t, 0)
  }

  function FirstUnusedFrom(t: Table, k: nat): (r: Option<nat>)
    requires k <= |t|
    ensures r.Some? ==> k <= r.value < |t| && t[r.value].state == UNUSED
    ensures r.Some? ==> forall i :: k <= i < r.value ==> t[i].state != UNUSED
    ensures r.None? ==> forall i :: k <= i < |t| ==> t[i].state != UNUSED
    decreases |t| - k
  {
    if k == |t| then None else if t[k].state == UNUSED then Some(k) else FirstUnusedFrom(t, k + 1)
  }

  /** The first zombie child of `p`. */
  function FirstZombie(t: Table, p: nat, k: nat): (r: Option<nat>)
    requires k <= |t|
    ensures r.Some? ==> k <= r.value < |t| && t[r.value].state == ZOMBIE && t[r.value].parent == Some(p)
    ensures r.None? ==> forall i :: k <= i < |t| ==> !(t[i].state == ZOMBIE && t[i].parent == Some(p))
    decreases |t| - k
  {
    if k == |t| then None
    else if t[k].parent == Some(p) && t[k].state == ZOMBIE then Some(k)
    else FirstZombie(t, p, k + 1)
  }

  /** `p` comes strictly before `(level, stamp)` in scheduling order. */
  predicate Before(p: Proc, level: nat, stamp: nat) {
    p.level < level || (p.level == level && p.stamp < stamp)
  }

  /** A choice the scheduler may make: runnable, and no runnable process comes before it. */
  ghost predicate IsBest(t: Table, b: nat) {
    && b < |t| && t[b].state == RUNNABLE
    && forall i :: 0 <= i < |t| && t[i].state == RUNNABLE ==> !Before(t[i], t[b].level, t[b].stamp)
  }

  /** The slot that the scan of the first `k` slots has chosen. */
  function BestOf(t: Table, k: nat): (r: Option<nat>)
    requires k <= |t|
    ensures r.Some? ==> r.value < k && t[r.value].state == RUNNABLE
  {
    if k == 0 then None
    else
      var best := BestOf(t, k - 1);
      var level := if best.Some? then t[best.value].level else MLFQ_LEVELS;
      var stamp := if best.Some? then t[best.value].stamp else MAX_STAMP;
      if t[k - 1].state == RUNNABLE && Before(t[k - 1], level, stamp) then Some(k - 1) else best
  }

  ghost predicate WellLevelled(t: Table) {
    forall i :: 0 <= i < |t| ==> t[i].level < MLFQ_LEVELS
  }

  /** The scan chooses a process with the lexicographically least level and stamp, the first of several. */
  lemma {:induction false} BestIsLeast(t: Table, k: nat)
    requires k <= |t| && WellLevelled(t)
    ensures BestOf(t, k).None? <==> forall i :: 0 <= i < k ==> t[i].state != RUNNABLE
    ensures BestOf(t, k).Some? ==>
              var b := BestOf(t, k).value;
              && (forall i :: 0 <= i < k && t[i].state == RUNNABLE ==> !Before(t[i], t[b].level, t[b].stamp))
              && (forall i :: 0 <= i < b && t[i].state == RUNNABLE ==> Before(t[b], t[i].level, t[i].stamp))
  {
    if k > 0 {
      BestIsLeast(t, k - 1);
    }
  }

  // ----- The loops -----

  class Scans {
    var procs: Table

    method Wakeup(chan: Chan, me: Option<nat>)
      modifies this
      ensures procs == WakeAll(old(procs), chan, me)
    {
      for i := 0 to |procs|
        invariant |procs| == |old(procs)|
        invariant forall k :: 0 <= k < i ==> procs[k] == Woken(old(procs)[k], chan, me == Some(k))
        invariant forall k :: i <= k < |procs| ==> procs[k] == old(procs)[k]
      {
        if me != Some(i) {
          if procs[i].state == SLEEPING && procs[i].chan == chan {
            procs := procs[i := procs[i].(state := RUNNABLE)];
          }
        }
      }
    }

    method Boost()
      modifies this
      ensures procs == BoostAll(old(procs))
    {
      for i := 0 to |procs|
        invariant |procs| == |old(procs)|
        invariant forall k :: 0 <= k < i ==> procs[k] == Boosted(old(procs)[k])
        invariant forall k :: i <= k < |procs| ==> procs[k] == old(procs)[k]
      {
        if procs[i].state != UNUSED {
          procs := procs[i := procs[i].(level := 0, ticks := 0)];
        }
      }
    }

    /** The scheduler's scan. */
    method PickBest() returns (best: Option<nat>)
      ensures best == BestOf(procs, |procs|)
    {
      best := None;
      var bestLevel, bestStamp := MLFQ_LEVELS, MAX_STAMP;
      for i := 0 to |procs|
        invariant best == BestOf(procs, i)
        invariant bestLevel == if best.Some? then procs[best.value].level else MLFQ_LEVELS
        invariant bestStamp == if best.Some? then procs[best.value].stamp else MAX_STAMP
      {
        var p := procs[i];
        if p.state == RUNNABLE {
          if p.level < bestLevel || (p.level == bestLevel && p.stamp < bestStamp) {
            best, bestLevel, bestStamp := Some(i), p.level, p.stamp;
          }
        }
      }
    }

    /** kexit's loop: each child found goes to init, which is woken each time. */
    method ReparentChildren(from: nat, to: nat, me: Option<nat>)
      modifies this
      ensures procs == Reparent(old(procs), from, to, me)
    {
      ghost var t := procs;
      for i := 0 to |procs|
        invariant |procs| == |t|
        invariant procs == ReparentedTo(t, from, to, me, i)
      {
        if procs[i].parent == Some(from) {
          procs := procs[i := procs[i].(parent := Some(to))];
          Wakeup(ProcChan(to), me);
        }
      }
      ReparentedAll(t, from, to, me);
    }

    /** kwait's scan: whether there are children, and the first that has exited. */
    method ScanChildren(p: nat) returns (haveKids: bool, zombie: Option<nat>)
      ensures zombie == FirstZombie(procs, p, 0)
      ensures zombie.None? ==> haveKids == HasChild(procs, p)
      ensures zombie.Some? ==> haveKids
    {
      haveKids := false;
      for i := 0 to |procs|
        invariant haveKids <==> exists k :: 0 <= k < i && procs[k].parent == Some(p)
        invariant FirstZombie(procs, p, i) == FirstZombie(procs, p, 0)
      {
        if procs[i].parent == Some(p) {
          haveKids := true;
          if procs[i].state == ZOMBIE {
            return true, Some(i);
          }
        }
      }
      zombie := None;
    }
  }
}
