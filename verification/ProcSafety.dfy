/** Fork, exit and wait keep the invariant, so no exit is lost and no process is reaped twice. */
module ProcSafety {
  import opened Prelude
  import opened ProcTable
  import opened ProcMachine

  // ----- Fork -----

  lemma ChildApart(t: Table, i: nat, j: nat)
    requires Konts(t) && i < |t| && j < |t| && i != j
    ensures !SameChild(t, i, j)
  {
    assert if i < j then !SameChild(t, i, j) else !SameChild(t, j, i);
  }

  /** A child that could not be given memory is taken back. */
  lemma ForkFailsKeeps(s: State, c: nat)
    requires Inv(s) && c < NPROC && s.procs[c].state == UNUSED
    ensures Inv(s.(procs := s.procs[c := Unused()], nextpid := s.nextpid + 1))
  {
    var t := s.procs[c := Unused()];
    assert FamilyOk(s.procs, s.init, c) && KontOk(s.procs, c) && RunningOk(s.procs, s.current, c);
    forall i: nat | i < NPROC ensures FamilyOk(t, s.init, i) && KontOk(t, i) && RunningOk(t, s.current, i) {
      assert FamilyOk(s.procs, s.init, i) && KontOk(s.procs, i) && RunningOk(s.procs, s.current, i);
    }
    ForkedPids(s.procs, t, s.nextpid, s.nextpid + 1, s.exited, s.reaped, c);
    forall i: nat, j: nat | i < j < NPROC ensures !SameChild(t, i, j) {
      assert !SameChild(s.procs, i, j);
    }
  }

  lemma ForkStartsKeeps(s: State, me: nat, c: nat, child: Proc)
    requires Inv(s) && s.current == Some(me) && s.procs[me].kont == Ready && c < NPROC && s.procs[c].state == UNUSED
    requires child == s.procs[c].(state := USED, pid := s.nextpid, level := 0, ticks := 0, stamp := 0)
    ensures Inv(s.(procs := s.procs[c := child][me := s.procs[me].(kont := Forked(c))], nextpid := s.nextpid + 1))
  {
    assert RunningOk(s.procs, s.current, me);
    var t := s.procs[c := child][me := s.procs[me].(kont := Forked(c))];
    assert FamilyOk(s.procs, s.init, c) && KontOk(s.procs, c);
    forall i: nat | i < NPROC ensures FamilyOk(t, s.init, i) && KontOk(t, i) && RunningOk(t, s.current, i) {
      assert FamilyOk(s.procs, s.init, i) && KontOk(s.procs, i) && RunningOk(s.procs, s.current, i);
    }
    ForkedPids(s.procs, t, s.nextpid, s.nextpid + 1, s.exited, s.reaped, c);
    forall i: nat, j: nat | i < j < NPROC ensures !SameChild(t, i, j) {
      assert !SameChild(s.procs, i, j) && KontOk(s.procs, i) && KontOk(s.procs, j);
    }
  }

  lemma ForkAllocKeeps(s: State, me: nat, ok: bool)
    requires Inv(s) && s.current == Some(me) && s.procs[me].kont == Ready
    ensures Inv(DoForkAlloc(s, me, ok))
  {
    assert RunningOk(s.procs, s.current, me);
    match FirstUnused(s.procs)
    case None =>
    case Some(c) =>
      if ok {
        ForkStartsKeeps(s, me, c, s.procs[c].(state := USED, pid := s.nextpid, level := 0, ticks := 0, stamp := 0));
      } else {
        ForkFailsKeeps(s, c);
      }
  }

  /** The new process takes a process id that nobody has had. */
  lemma ForkedPids(t: Table, t': Table, nextpid: int, later: int, exited: map<int, int>, reaped: map<int, int>, c: nat)
    requires Pids(t, nextpid, exited, reaped) && later == nextpid + 1 && |t'| == |t| && c < |t|
    requires forall i :: 0 <= i < |t| && i != c ==>
               t'[i].state == t[i].state && t'[i].pid == t[i].pid && t'[i].xstate == t[i].xstate
    requires (t'[c].state == UNUSED && t'[c].pid == 0) || (t'[c].state == USED && t'[c].pid == nextpid)
    ensures Pids(t', later, exited, reaped)
  {
    forall i: nat | i < |t| ensures PidOk(t', later, exited, reaped, i) {
      assert PidOk(t, nextpid, exited, reaped, i);
    }
    forall i: nat, j: nat | i < j < |t| ensures !SamePid(t', i, j) {
      assert !SamePid(t, i, j);
      assert PidOk(t, nextpid, exited, reaped, i) && PidOk(t, nextpid, exited, reaped, j);
    }
  }

  lemma SamePids(t: Table, t': Table, nextpid: int, exited: map<int, int>, reaped: map<int, int>)
    requires Pids(t, nextpid, exited, reaped) && |t'| == |t|
    requires forall i :: 0 <= i < |t| ==>
               && t'[i].pid == t[i].pid && t'[i].xstate == t[i].xstate
               && (t'[i].state == t[i].state || (t[i].state != ZOMBIE && t'[i].state != ZOMBIE
                                                 && t[i].state != UNUSED && t'[i].state != UNUSED))
    ensures Pids(t', nextpid, exited, reaped)
  {
    forall i: nat | i < |t| ensures PidOk(t', nextpid, exited, reaped, i) {
      assert PidOk(t, nextpid, exited, reaped, i);
    }
    forall i: nat, j: nat | i < j < |t| ensures !SamePid(t', i, j) {
      assert !SamePid(t, i, j);
    }
  }

  lemma ForkLinkKeeps(s: State, me: nat)
    requires Inv(s) && s.current == Some(me) && s.procs[me].kont.Forked? && s.procs[me].kont.child < NPROC
    ensures Inv(DoForkLink(s, me, s.procs[me].kont.child))
  {
    var c := s.procs[me].kont.child;
    var s' := DoForkLink(s, me, c);
    assert RunningOk(s.procs, s.current, me) && KontOk(s.procs, me) && KontOk(s.procs, c);
    forall i: nat | i < NPROC
      ensures FamilyOk(s'.procs, s.init, i) && KontOk(s'.procs, i) && RunningOk(s'.procs, s'.current, i)
    {
      assert FamilyOk(s.procs, s.init, i) && KontOk(s.procs, i) && RunningOk(s.procs, s.current, i);
      if i != me {
        ChildApart(s.procs, i, me);
      }
    }
    SamePids(s.procs, s'.procs, s.nextpid, s.exited, s.reaped);
    forall i: nat, j: nat | i < j < NPROC ensures !SameChild(s'.procs, i, j) {
      assert !SameChild(s.procs, i, j);
    }
  }

  lemma ForkReadyKeeps(s: State, me: nat)
    requires Inv(s) && s.current == Some(me) && s.procs[me].kont.Parented? && s.procs[me].kont.child < NPROC
    ensures Inv(DoForkReady(s, me, s.procs[me].kont.child))
  {
    var c := s.procs[me].kont.child;
    var s' := DoForkReady(s, me, c);
    assert RunningOk(s.procs, s.current, me) && KontOk(s.procs, me) && KontOk(s.procs, c);
    forall i: nat | i < NPROC
      ensures FamilyOk(s'.procs, s.init, i) && KontOk(s'.procs, i) && RunningOk(s'.procs, s'.current, i)
    {
      assert FamilyOk(s.procs, s.init, i) && KontOk(s.procs, i) && RunningOk(s.procs, s.current, i);
      if i != me {
        ChildApart(s.procs, i, me);
      }
    }
    SamePids(s.procs, s'.procs, s.nextpid, s.exited, s.reaped);
    forall i: nat, j: nat | i < j < NPROC ensures !SameChild(s'.procs, i, j) {
      assert !SameChild(s.procs, i, j);
    }
  }

  // ----- Exit -----

  /** What an exit makes of slot `i`. */
  ghost predicate ExitChange(t: Table, t': Table, init: nat, me: nat, i: nat)
    requires |t'| == |t| && i < |t| && me < |t| && init < |t|
  {
    var p, q := t[i], t'[i];
    && q.parent == Adopted(p, me, init).parent
    && q.pid == p.pid && q.kont == p.kont && q.chan == p.chan && q.level == p.level
    && (i == me ==> q.state == ZOMBIE)
    && (i != me ==> q.xstate == p.xstate && (q.state == p.state || (p.state == SLEEPING && q.state == RUNNABLE)))
    && (i == init && HasChild(t, me) ==> !WaitsForChild(q, i))
    && (t[me].parent == Some(i) ==> !WaitsForChild(q, i))
  }

  lemma OrphanedAt(t: Table, init: nat, me: nat, i: nat)
    requires me < |t| && i < |t| && init < |t| && me != init && t[me].state == RUNNING && t[me].parent != Some(me)
    ensures var p, q := t[i], Orphaned(t, init, me)[i];
            && q == p.(parent := Adopted(p, me, init).parent, state := q.state)
            && (q.state == p.state || (i != me && p.state == SLEEPING && q.state == RUNNABLE))
            && (i == init && HasChild(t, me) ==> !WaitsForChild(q, i))
            && (t[me].parent == Some(i) ==> !WaitsForChild(q, i))
  {
    var t1 := Reparent(t, me, init, Some(me));
    var quiet := !HasChild(t, me);
    assert t1[me] == t[me];
    assert t1[i] == Woken(Adopted(t[i], me, init), ProcChan(init), quiet || i == me);
    OrphanedOne(t[i], init, me, quiet, t[me].parent, i);
  }

  lemma OrphanedOne(p: Proc, init: nat, me: nat, quiet: bool, parent: Option<nat>, i: nat)
    requires i == me ==> p.state == RUNNING && init != me && parent != Some(me)
    ensures var q := Woken(Woken(Adopted(p, me, init), ProcChan(init), quiet || i == me),
                           if parent.Some? then ProcChan(parent.value) else NoChan, i == me);
            && q == p.(parent := Adopted(p, me, init).parent, state := q.state)
            && (q.state == p.state || (i != me && p.state == SLEEPING && q.state == RUNNABLE))
            && (i == init && !quiet ==> !WaitsForChild(q, i))
            && (parent == Some(i) ==> !WaitsForChild(q, i))
  {
  }

  lemma ExitChanges(s: State, me: nat, status: int, i: nat)
    requires |s.procs| == NPROC && me < NPROC && s.init < NPROC && me != s.init && i < NPROC
    requires s.procs[me].state == RUNNING && s.procs[me].parent != Some(me)
    ensures ExitChange(s.procs, DoExit(s, me, status).procs, s.init, me, i)
  {
    OrphanedAt(s.procs, s.init, me, i);
  }

  lemma ExitFamilies(t: Table, t': Table, init: nat, me: nat)
    requires Families(t, init) && |t'| == |t| && me < |t| && me != init && t[me].state == RUNNING
    requires forall i: nat {:trigger ExitChange(t, t', init, me, i)} :: i < |t| ==> ExitChange(t, t', init, me, i)
    ensures Families(t', init)
  {
    assert ExitChange(t, t', init, me, init);
    forall i: nat | i < |t| ensures FamilyOk(t', init, i) {
      assert FamilyOk(t, init, i) && ExitChange(t, t', init, me, i) && ExitChange(t, t', init, me, me);
      if t[i].parent.Some? {
        assert ExitChange(t, t', init, me, t[i].parent.value);
      }
      assert t[i].parent == Some(me) ==> HasChild(t, me);
    }
  }

  lemma ExitKonts(t: Table, t': Table, init: nat, me: nat)
    requires Konts(t) && |t'| == |t| && me < |t| && init < |t| && t[me].kont == Ready && t[me].state == RUNNING
    requires forall i: nat {:trigger ExitChange(t, t', init, me, i)} :: i < |t| ==> ExitChange(t, t', init, me, i)
    ensures Konts(t')
  {
    forall i: nat | i < |t| ensures KontOk(t', i) {
      assert KontOk(t, i) && ExitChange(t, t', init, me, i);
      if t[i].kont.Forked? || t[i].kont.Parented? {
        assert ExitChange(t, t', init, me, t[i].kont.child);
      }
    }
    forall i: nat, j: nat | i < j < |t| ensures !SameChild(t', i, j) {
      assert !SameChild(t, i, j) && ExitChange(t, t', init, me, i) && ExitChange(t, t', init, me, j);
    }
  }

  lemma ExitPids(t: Table, t': Table, init: nat, me: nat, nextpid: int, exited: map<int, int>, reaped: map<int, int>,
                 status: int)
    requires Pids(t, nextpid, exited, reaped) && |t'| == |t| && me < |t| && init < |t|
    requires t[me].state == RUNNING && t'[me].xstate == status
    requires forall i: nat {:trigger ExitChange(t, t', init, me, i)} :: i < |t| ==> ExitChange(t, t', init, me, i)
    ensures Pids(t', nextpid, exited[t[me].pid := status], reaped)
  {
    var exited' := exited[t[me].pid := status];
    assert PidOk(t, nextpid, exited, reaped, me);
    forall i: nat | i < |t| ensures PidOk(t', nextpid, exited', reaped, i) {
      assert PidOk(t, nextpid, exited, reaped, i) && ExitChange(t, t', init, me, i);
      assert !SamePid(t, i, me) || i >= me;
      assert !SamePid(t, me, i) || me >= i;
    }
    forall i: nat, j: nat | i < j < |t| ensures !SamePid(t', i, j) {
      assert !SamePid(t, i, j) && ExitChange(t, t', init, me, i) && ExitChange(t, t', init, me, j);
    }
  }

  lemma ExitKeeps(s: State, me: nat, status: int)
    requires Inv(s) && s.current == Some(me) && s.procs[me].kont == Ready && me != s.init
    ensures Inv(DoExit(s, me, status))
  {
    var t' := DoExit(s, me, status).procs;
    assert RunningOk(s.procs, s.current, me) && FamilyOk(s.procs, s.init, me);
    forall i: nat | i < NPROC ensures ExitChange(s.procs, t', s.init, me, i) && RunningOk(t', None, i) {
      ExitChanges(s, me, status, i);
      assert RunningOk(s.procs, s.current, i);
    }
    ExitFamilies(s.procs, t', s.init, me);
    ExitKonts(s.procs, t', s.init, me);
    ExitPids(s.procs, t', s.init, me, s.nextpid, s.exited, s.reaped, status);
  }

  // ----- Wait -----

  lemma ReapKeeps(s: State, me: nat, z: nat)
    requires Inv(s) && s.current == Some(me) && (s.procs[me].kont == Ready || s.procs[me].kont == InWait)
    requires z < NPROC && s.procs[z].state == ZOMBIE && s.procs[z].parent == Some(me)
    ensures var t := s.procs[z := Unused()];
            Inv(s.(procs := t[me := t[me].(kont := Ready)], reaped := s.reaped[s.procs[z].pid := s.procs[z].xstate]))
  {
    var t := s.procs[z := Unused()][me := s.procs[me].(kont := Ready)];
    var reaped := s.reaped[s.procs[z].pid := s.procs[z].xstate];
    assert RunningOk(s.procs, s.current, me);
    assert PidOk(s.procs, s.nextpid, s.exited, s.reaped, z);
    forall i: nat | i < NPROC ensures FamilyOk(t, s.init, i) && KontOk(t, i) && RunningOk(t, s.current, i) {
      assert FamilyOk(s.procs, s.init, i) && KontOk(s.procs, i) && RunningOk(s.procs, s.current, i);
    }
    forall i: nat | i < NPROC ensures PidOk(t, s.nextpid, s.exited, reaped, i) {
      assert PidOk(s.procs, s.nextpid, s.exited, s.reaped, i);
      assert !SamePid(s.procs, i, z) || i >= z;
      assert !SamePid(s.procs, z, i) || z >= i;
    }
    forall i: nat, j: nat | i < j < NPROC ensures !SameChild(t, i, j) && !SamePid(t, i, j) {
      assert !SameChild(s.procs, i, j) && !SamePid(s.procs, i, j);
    }
  }

  /** Leaving kwait, or going to sleep in it when no child has exited. */
  lemma WaitOnKeeps(s: State, me: nat, p: Proc, current: Option<nat>)
    requires Inv(s) && s.current == Some(me) && (s.procs[me].kont == Ready || s.procs[me].kont == InWait)
    requires (p == s.procs[me].(kont := Ready) && current == s.current)
             || (p == Asleep(s.procs[me], ProcChan(me), InWait) && current == None && FirstZombie(s.procs, me, 0).None?)
    ensures Inv(s.(procs := s.procs[me := p], current := current))
  {
    var t := s.procs[me := p];
    assert RunningOk(s.procs, s.current, me);
    forall i: nat | i < NPROC ensures FamilyOk(t, s.init, i) && KontOk(t, i) && RunningOk(t, current, i) {
      assert FamilyOk(s.procs, s.init, i) && KontOk(s.procs, i) && RunningOk(s.procs, s.current, i);
    }
    forall i: nat, j: nat | i < j < NPROC ensures !SameChild(t, i, j) {
      assert !SameChild(s.procs, i, j);
    }
    SamePids(s.procs, t, s.nextpid, s.exited, s.reaped);
  }

  lemma WaitKeeps(s: State, me: nat, copyOk: bool)
    requires Inv(s) && s.current == Some(me) && (s.procs[me].kont == Ready || s.procs[me].kont == InWait)
    ensures Inv(DoWait(s, me, copyOk))
  {
    var z := FirstZombie(s.procs, me, 0);
    if z.Some? && copyOk {
      ReapKeeps(s, me, z.value);
    } else {
      var s' := DoWait(s, me, copyOk);
      WaitOnKeeps(s, me, s'.procs[me], s'.current);
    }
  }

  // ----- Runs -----

  /** Every step keeps the invariant. */
  lemma StepKeeps(s: State, a: Action)
    requires Inv(s) && Enabled(s, a)
    ensures Inv(Do(s, a))
  {
    match a
    case ForkAlloc(ok) => ForkAllocKeeps(s, s.current.value, ok);
    case ForkLink => ForkLinkKeeps(s, s.current.value);
    case ForkReady => ForkReadyKeeps(s, s.current.value);
    case Exit(status) => ExitKeeps(s, s.current.value, status);
    case Wait(copyOk) => WaitKeeps(s, s.current.value, copyOk);
    case _ => SchedulingKeeps(s, a);
  }

  /** userinit: one runnable process, init, in the first slot. */
  ghost predicate Initial(s: State) {
    && |s.procs| == NPROC && s.current == None && s.init == 0 && s.nextpid == 2 && s.ticket == 1 && !s.needBoost
    && s.exited == map[] && s.reaped == map[]
    && s.procs[0] == Unused().(state := RUNNABLE, pid := 1)
    && forall i :: 1 <= i < NPROC ==> s.procs[i] == Unused()
  }

  ghost predicate StepAt(states: seq<State>, acts: seq<Action>, i: nat)
    requires |states| == |acts| + 1 && i < |acts|
  {
    Enabled(states[i], acts[i]) && states[i + 1] == Do(states[i], acts[i])
  }

  ghost predicate IsRun(states: seq<State>, acts: seq<Action>) {
    && |states| == |acts| + 1 && Initial(states[0])
    && forall i :: 0 <= i < |acts| ==> StepAt(states, acts, i)
  }

  lemma InitialInv(s: State)
    requires Initial(s)
    ensures Inv(s)
  {
    var t := s.procs;
    forall i: nat | i < NPROC
      ensures FamilyOk(t, s.init, i) && KontOk(t, i) && RunningOk(t, s.current, i)
      ensures PidOk(t, s.nextpid, s.exited, s.reaped, i)
    {
    }
  }

  lemma {:induction false} RunInv(states: seq<State>, acts: seq<Action>, i: nat)
    requires IsRun(states, acts) && i < |states|
    ensures Inv(states[i])
    decreases i
  {
    if i == 0 {
      InitialInv(states[0]);
    } else {
      RunInv(states, acts, i - 1);
      assert StepAt(states, acts, i - 1);
      StepKeeps(states[i - 1], acts[i - 1]);
    }
  }

  // ----- No lost exit -----

  /** In every state of every run, a process that has exited has a parent that is live and not asleep in kwait. */
  lemma NoLostExit(states: seq<State>, acts: seq<Action>, k: nat, z: nat)
    requires IsRun(states, acts) && k < |states| && z < NPROC && |states[k].procs| == NPROC
    requires states[k].procs[z].state == ZOMBIE
    ensures var t := states[k].procs;
            && t[z].parent.Some? && t[z].parent.value < NPROC
            && var p := t[t[z].parent.value];
               && p.state != ZOMBIE && p.state != UNUSED
               && !(p.state == SLEEPING && p.kont == InWait)
  {
    RunInv(states, acts, k);
    assert FamilyOk(states[k].procs, states[k].init, z);
    assert PidOk(states[k].procs, states[k].nextpid, states[k].exited, states[k].reaped, z);
    assert KontOk(states[k].procs, states[k].procs[z].parent.value);
  }

  // ----- Sleepers in kwait have children -----

  /** A process asleep in kwait has a child; a child that is not linked yet has no parent, and one that is linked
      but not runnable has a parent in the middle of the fork. */
  ghost predicate KidOk(t: Table, i: nat)
    requires i < |t|
  {
    && (WaitsForChild(t[i], i) ==> HasChild(t, i))
    && (t[i].kont.Forked? && t[i].kont.child < |t| ==> t[t[i].kont.child].parent == None)
    && (t[i].state == USED && t[i].parent.Some? && t[i].parent.value < |t| ==>
          t[t[i].parent.value].kont == Parented(i))
  }

  ghost predicate Kids(t: Table) {
    forall i: nat {:trigger KidOk(t, i)} :: i < |t| ==> KidOk(t, i)
  }

  lemma ChildStays(t: Table, t': Table, p: nat)
    requires HasChild(t, p) && |t'| == |t|
    requires forall j :: 0 <= j < |t| && t[j].parent == Some(p) ==> t'[j].parent == Some(p)
    ensures HasChild(t', p)
  {
    var j :| 0 <= j < |t| && t[j].parent == Some(p);
    assert t'[j].parent == Some(p);
  }

  lemma GentleKids(t: Table, t': Table)
    requires Kids(t) && AllGentle(t, t')
    ensures Kids(t')
  {
    forall i: nat | i < |t| ensures KidOk(t', i) {
      assert KidOk(t, i) && Gentle(t[i], t'[i]);
      forall j | 0 <= j < |t| ensures t'[j].parent == t[j].parent {
        assert Gentle(t[j], t'[j]);
      }
      if WaitsForChild(t'[i], i) {
        ChildStays(t, t', i);
      }
      if t[i].parent.Some? && t[i].parent.value < |t| {
        assert Gentle(t[t[i].parent.value], t'[t[i].parent.value]);
      }
    }
  }

  /** Slot `c`, whose parent can only be the running process, changes hands; nobody falls asleep. */
  lemma SlotKids(t: Table, t': Table, me: nat, c: nat, kont: Kont)
    requires Kids(t) && Konts(t) && |t'| == |t| && me < |t| && c < |t| && me != c && t[me].state == RUNNING
    requires t' == t[c := t'[c]][me := t[me].(kont := kont)]
    requires t[c].state != SLEEPING && t'[c].state != SLEEPING && t[c].kont == Ready && t'[c].kont == Ready
    requires t[c].parent.None? || t[c].parent == Some(me)
    requires kont.Forked? ==> kont.child == c && t'[c].parent == None
    requires t'[c].parent == None || t[me].kont == Forked(c) || t'[c].parent == t[c].parent
    requires t[me].kont.Parented? ==> t[me].kont.child == c
    requires t'[c].state == USED && t'[c].parent.Some? ==> t'[c].parent == Some(me) && kont == Parented(c)
    ensures Kids(t')
  {
    forall i: nat | i < |t| ensures KidOk(t', i) {
      assert KidOk(t, i) && KontOk(t, i);
      if WaitsForChild(t'[i], i) {
        ChildStays(t, t', i);
      }
      if i != me {
        ChildApart(t, i, me);
      }
    }
  }

  lemma ExitKids(t: Table, t': Table, init: nat, me: nat)
    requires Kids(t) && |t'| == |t| && me < |t| && init < |t| && t[me].kont == Ready
    requires forall i: nat {:trigger ExitChange(t, t', init, me, i)} :: i < |t| ==> ExitChange(t, t', init, me, i)
    ensures Kids(t')
  {
    forall i: nat | i < |t| ensures KidOk(t', i) {
      assert KidOk(t, i) && ExitChange(t, t', init, me, i);
      if WaitsForChild(t'[i], i) {
        forall j: nat | j < |t| && t[j].parent == Some(i) ensures t'[j].parent == Some(i) {
          assert ExitChange(t, t', init, me, j);
        }
        ChildStays(t, t', i);
      }
      if t[i].kont.Forked? && t[i].kont.child < |t| {
        assert ExitChange(t, t', init, me, t[i].kont.child);
      }
      if t[i].parent.Some? && t[i].parent.value < |t| {
        assert ExitChange(t, t', init, me, t[i].parent.value);
      }
    }
  }

  /** Leaving kwait, or going to sleep in it with a child. */
  lemma WaitOnKids(t: Table, me: nat, p: Proc)
    requires Kids(t) && me < |t| && p.parent == t[me].parent && p.state != USED
    requires !t[me].kont.Parented? && !p.kont.Forked?
    requires WaitsForChild(p, me) ==> HasChild(t, me)
    ensures Kids(t[me := p])
  {
    var t' := t[me := p];
    forall i: nat | i < |t| ensures KidOk(t', i) {
      assert KidOk(t, i);
      if WaitsForChild(t'[i], i) {
        ChildStays(t, t', i);
      }
    }
  }

  lemma ForkKids(s: State, a: Action)
    requires Inv(s) && Enabled(s, a) && Kids(s.procs) && (a.ForkAlloc? || a.ForkLink? || a.ForkReady?)
    ensures Kids(Do(s, a).procs)
  {
    var t, t', me := s.procs, Do(s, a).procs, s.current.value;
    assert RunningOk(t, s.current, me) && KontOk(t, me) && KidOk(t, me);
    if a.ForkAlloc? {
      var c := FirstUnused(t);
      if c.Some? {
        assert FamilyOk(t, s.init, c.value) && KontOk(t, c.value);
        SlotKids(t, t', me, c.value, t'[me].kont);
      }
    } else {
      var c := t[me].kont.child;
      assert FamilyOk(t, s.init, c) && KontOk(t, c);
      SlotKids(t, t', me, c, t'[me].kont);
    }
  }

  lemma WaitKids(s: State, me: nat, copyOk: bool)
    requires Inv(s) && Kids(s.procs) && s.current == Some(me)
    requires s.procs[me].kont == Ready || s.procs[me].kont == InWait
    ensures Kids(DoWait(s, me, copyOk).procs)
  {
    var t, t', z := s.procs, DoWait(s, me, copyOk).procs, FirstZombie(s.procs, me, 0);
    assert RunningOk(t, s.current, me);
    if z.Some? && copyOk {
      assert KontOk(t, z.value);
      SlotKids(t, t', me, z.value, Ready);
    } else {
      WaitOnKids(t, me, t'[me]);
    }
  }

  lemma ExitingKids(s: State, me: nat, status: int)
    requires Inv(s) && Kids(s.procs) && s.current == Some(me) && s.procs[me].kont == Ready && me != s.init
    ensures Kids(DoExit(s, me, status).procs)
  {
    var t' := DoExit(s, me, status).procs;
    assert RunningOk(s.procs, s.current, me) && FamilyOk(s.procs, s.init, me);
    forall i: nat | i < NPROC ensures ExitChange(s.procs, t', s.init, me, i) {
      ExitChanges(s, me, status, i);
    }
    ExitKids(s.procs, t', s.init, me);
  }

  lemma StepKids(s: State, a: Action)
    requires Inv(s) && Enabled(s, a) && Kids(s.procs)
    ensures Kids(Do(s, a).procs)
  {
    if a.ForkAlloc? || a.ForkLink? || a.ForkReady? {
      ForkKids(s, a);
    } else if a.Exit? {
      ExitingKids(s, s.current.value, a.status);
    } else if a.Wait? {
      WaitKids(s, s.current.value, a.copyOk);
    } else {
      SchedulingGentle(s, a);
      GentleKids(s.procs, Do(s, a).procs);
    }
  }

  lemma {:induction false} RunKids(states: seq<State>, acts: seq<Action>, i: nat)
    requires IsRun(states, acts) && i < |states|
    ensures Kids(states[i].procs)
    decreases i
  {
    if i > 0 {
      RunKids(states, acts, i - 1);
      RunInv(states, acts, i - 1);
      assert StepAt(states, acts, i - 1);
      StepKids(states[i - 1], acts[i - 1]);
    }
  }

  /** In every state of every run, a process asleep in kwait has a live child: the exit that will wake the sleeper is
      still to come. */
  lemma SleeperHasChild(states: seq<State>, acts: seq<Action>, k: nat, i: nat) returns (c: nat)
    requires IsRun(states, acts) && k < |states| && i < |states[k].procs|
    requires states[k].procs[i].state == SLEEPING && states[k].procs[i].kont == InWait
    ensures c < |states[k].procs| && states[k].procs[c].parent == Some(i)
    ensures Live(states[k].procs[c].state)
  {
    RunInv(states, acts, k);
    RunKids(states, acts, k);
    var t := states[k].procs;
    assert KontOk(t, i) && KidOk(t, i);
    c :| c < |t| && t[c].parent == Some(i);
    assert FamilyOk(t, states[k].init, c) && KidOk(t, c);
  }

  /** Step `k` hands process `pid` to the process that waits for it. */
  ghost predicate Reaps(states: seq<State>, k: nat, pid: int) {
    k + 1 < |states| && pid in states[k + 1].reaped && pid !in states[k].reaped
  }

  lemma ReapedGrows(s: State, a: Action)
    requires Inv(s) && Enabled(s, a)
    ensures forall pid :: pid in s.reaped ==> pid in Do(s, a).reaped && Do(s, a).reaped[pid] == s.reaped[pid]
  {
    if a.Wait? && FirstZombie(s.procs, s.current.value, 0).Some? {
      assert PidOk(s.procs, s.nextpid, s.exited, s.reaped, FirstZombie(s.procs, s.current.value, 0).value);
    }
  }

  lemma {:induction false} ReapedStays(states: seq<State>, acts: seq<Action>, j: nat, k: nat, pid: int)
    requires IsRun(states, acts) && j <= k < |states| && pid in states[j].reaped
    ensures pid in states[k].reaped
    decreases k
  {
    if j < k {
      ReapedStays(states, acts, j, k - 1, pid);
      RunInv(states, acts, k - 1);
      assert StepAt(states, acts, k - 1);
      ReapedGrows(states[k - 1], acts[k - 1]);
    }
  }

  /** Step `k` is the exit of process `pid` with `status`. */
  ghost predicate Exits(states: seq<State>, acts: seq<Action>, k: nat, pid: int, status: int) {
    && k < |acts| < |states| && acts[k] == Exit(status) && states[k].current.Some?
    && states[k].current.value < |states[k].procs| && states[k].procs[states[k].current.value].pid == pid
  }

  lemma ExitedStep(s: State, a: Action, pid: int)
    requires Enabled(s, a) && pid in Do(s, a).exited
    ensures (a == Exit(Do(s, a).exited[pid]) && s.procs[s.current.value].pid == pid)
         || (pid in s.exited && s.exited[pid] == Do(s, a).exited[pid])
  {
  }

  /** An entry in the ledger of exits was made by an exit step. */
  lemma {:induction false} ExitedBefore(states: seq<State>, acts: seq<Action>, k: nat, pid: int) returns (e: nat)
    requires IsRun(states, acts) && k < |states| && pid in states[k].exited
    ensures e < k && Exits(states, acts, e, pid, states[k].exited[pid])
    decreases k
  {
    assert k > 0;
    assert StepAt(states, acts, k - 1);
    ExitedStep(states[k - 1], acts[k - 1], pid);
    if Exits(states, acts, k - 1, pid, states[k].exited[pid]) {
      e := k - 1;
    } else {
      e := ExitedBefore(states, acts, k - 1, pid);
    }
  }

  /** A step that reaps is a wait by the parent of a process that has exited. */
  lemma ReapStep(s: State, a: Action, pid: int) returns (z: nat)
    requires Inv(s) && Enabled(s, a) && pid in Do(s, a).reaped && pid !in s.reaped
    ensures a.Wait? && z < NPROC && s.procs[z].pid == pid && s.procs[z].state == ZOMBIE
    ensures s.procs[z].parent == s.current
    ensures Do(s, a).exited == s.exited
  {
    z := FirstZombie(s.procs, s.current.value, 0).value;
  }

  /** No process is reaped twice, and each is reaped by its parent with the status of its own exit. */
  lemma ReapedOnce(states: seq<State>, acts: seq<Action>, k: nat, pid: int) returns (e: nat, z: nat)
    requires IsRun(states, acts) && Reaps(states, k, pid)
    ensures forall j :: 0 <= j < |acts| && Reaps(states, j, pid) ==> j == k
    ensures e < k && Exits(states, acts, e, pid, states[k + 1].reaped[pid])
    ensures z < |states[k].procs| && states[k].procs[z].pid == pid && states[k].procs[z].parent == states[k].current
  {
    RunInv(states, acts, k);
    RunInv(states, acts, k + 1);
    assert StepAt(states, acts, k);
    z := ReapStep(states[k], acts[k], pid);
    e := ExitedBefore(states, acts, k, pid);
    forall j | 0 <= j < |acts| && Reaps(states, j, pid) ensures j == k {
      if j < k {
        ReapedStays(states, acts, j + 1, k, pid);
      } else if k < j {
        ReapedStays(states, acts, k + 1, j, pid);
      }
    }
  }

  // ----- Wakeups -----

  /** After a wakeup nobody but the running process sleeps on the channel, and everybody else is as before. */
  lemma WakeupWakes(s: State, id: nat, i: nat)
    requires Inv(s) && i < NPROC
    ensures var t := Do(s, Wakeup(id)).procs;
            && |t| == NPROC && !(t[i].state == SLEEPING && t[i].chan == Other(id))
            && (s.procs[i].state != SLEEPING || s.procs[i].chan != Other(id) ==> t[i] == s.procs[i])
            && (s.procs[i].state == SLEEPING && s.procs[i].chan == Other(id) ==> t[i] == s.procs[i].(state := RUNNABLE))
  {
    assert RunningOk(s.procs, s.current, i);
  }

  // ----- Kill -----

  /** kkill marks only processes that have the given id, except that id 0 finds a slot not in use. */
  lemma KillExact(s: State, pid: int)
    requires Inv(s)
    ensures (forall i: nat :: i < NPROC && DoKill(s, pid).procs[i] != s.procs[i] ==> s.procs[i].state != UNUSED)
       <==> (pid != 0 || FirstUnused(s.procs).None? || s.procs[FirstUnused(s.procs).value].killed)
  {
    forall i: nat | i < NPROC ensures s.procs[i].pid == 0 <==> s.procs[i].state == UNUSED {
      assert PidOk(s.procs, s.nextpid, s.exited, s.reaped, i);
    }
    var r := FindPid(s.procs, pid, 0);
    if pid == 0 && FirstUnused(s.procs).Some? {
      assert r == FirstUnused(s.procs);
      assert DoKill(s, pid).procs[r.value].killed;
    }
  }

  /** After kill(0), the next process forked is born killed. */
  lemma KillZeroDoomsNextChild(s: State, me: nat)
    requires Inv(s) && s.current == Some(me) && s.procs[me].kont == Ready && FirstUnused(s.procs).Some?
    ensures var c := FirstUnused(s.procs).value;
            var s' := DoForkAlloc(DoKill(s, 0), me, true);
            s'.procs[me].kont == Forked(c) && s'.procs[c].state == USED && s'.procs[c].killed
  {
    forall i: nat | i < NPROC ensures s.procs[i].pid == 0 <==> s.procs[i].state == UNUSED {
      assert PidOk(s.procs, s.nextpid, s.exited, s.reaped, i);
    }
    assert RunningOk(s.procs, s.current, me);
    var c := FirstUnused(s.procs).value;
    assert FindPid(s.procs, 0, 0) == Some(c);
    var t := DoKill(s, 0).procs;
    assert t == s.procs[c := s.procs[c].(killed := true)];
    assert forall i :: 0 <= i < c ==> t[i].state != UNUSED;
    assert t[c].state == UNUSED;
    assert FirstUnused(t) == Some(c);
  }

  /** The step is a kkill(0) that finds slot `i`, which is not in use. */
  predicate FindsUnused(s: State, a: Action, i: nat) {
    a == Kill(0) && FirstUnused(s.procs) == Some(i)
  }

  /** The step returns slot `i` to the free ones: its process is reaped, or a fork gives up for want of memory. */
  predicate Frees(s: State, a: Action, i: nat) {
    || (a == ForkAlloc(false) && FirstUnused(s.procs) == Some(i))
    || (a == Wait(true) && s.current.Some? && FirstZombie(s.procs, s.current.value, 0) == Some(i))
  }

  lemma ZeroIsUnused(s: State)
    requires Inv(s)
    ensures FindPid(s.procs, 0, 0) == FirstUnused(s.procs)
  {
    forall i: nat | i < NPROC ensures s.procs[i].pid == 0 <==> s.procs[i].state == UNUSED {
      assert PidOk(s.procs, s.nextpid, s.exited, s.reaped, i);
    }
  }

  /** What a step makes of the mark on a slot that is not in use after it. */
  ghost predicate MarkFollows(s: State, a: Action, i: nat)
    requires Enabled(s, a)
  {
    var s' := Do(s, a);
    && i < |s.procs| == |s'.procs|
    && (s'.procs[i].state == UNUSED ==>
          (s'.procs[i].killed <==>
             FindsUnused(s, a, i) || (!Frees(s, a, i) && s.procs[i].state == UNUSED && s.procs[i].killed)))
  }

  lemma SchedulingMark(s: State, a: Action, i: nat)
    requires Inv(s) && Enabled(s, a) && i < NPROC && (a.Dispatch? || a.Tick? || a.Wakeup? || a.Yield? || a.Sleep?)
    ensures MarkFollows(s, a, i)
  {
    SchedulingGentle(s, a);
    assert Gentle(s.procs[i], Do(s, a).procs[i]);
  }

  lemma KillMark(s: State, pid: int, i: nat)
    requires Inv(s) && Enabled(s, Kill(pid)) && i < NPROC
    ensures MarkFollows(s, Kill(pid), i)
  {
    assert PidOk(s.procs, s.nextpid, s.exited, s.reaped, i);
    ZeroIsUnused(s);
  }

  lemma ForkMark(s: State, a: Action, i: nat)
    requires Inv(s) && Enabled(s, a) && i < NPROC && (a.ForkAlloc? || a.ForkLink? || a.ForkReady?)
    ensures MarkFollows(s, a, i)
  {
    assert RunningOk(s.procs, s.current, s.current.value) && KontOk(s.procs, s.current.value);
  }

  lemma ExitMark(s: State, status: int, i: nat)
    requires Inv(s) && Enabled(s, Exit(status)) && i < NPROC
    ensures MarkFollows(s, Exit(status), i)
  {
    assert RunningOk(s.procs, s.current, s.current.value) && FamilyOk(s.procs, s.init, s.current.value);
    ExitLeaves(s, s.current.value, status, i);
    assert Do(s, Exit(status)) == DoExit(s, s.current.value, status);
  }

  lemma ExitLeaves(s: State, me: nat, status: int, i: nat)
    requires |s.procs| == NPROC && me < NPROC && s.init < NPROC && me != s.init && i < NPROC
    requires s.procs[me].state == RUNNING && s.procs[me].parent != Some(me)
    ensures var p, t := s.procs[i], DoExit(s, me, status).procs;
            |t| == NPROC && t[i].killed == p.killed && (t[i].state == UNUSED <==> p.state == UNUSED)
  {
    OrphanedAt(s.procs, s.init, me, i);
  }

  lemma WaitMark(s: State, copyOk: bool, i: nat)
    requires Inv(s) && Enabled(s, Wait(copyOk)) && i < NPROC
    ensures MarkFollows(s, Wait(copyOk), i)
  {
    assert RunningOk(s.procs, s.current, s.current.value);
  }

  lemma MarkStep(s: State, a: Action, i: nat)
    requires Inv(s) && Enabled(s, a) && i < NPROC
    ensures MarkFollows(s, a, i)
  {
    match a
    case Kill(pid) => KillMark(s, pid, i);
    case Exit(status) => ExitMark(s, status, i);
    case Wait(copyOk) => WaitMark(s, copyOk, i);
    case ForkAlloc(_) => ForkMark(s, a, i);
    case ForkLink => ForkMark(s, a, i);
    case ForkReady => ForkMark(s, a, i);
    case _ => SchedulingMark(s, a, i);
  }

  /** Step `j` is a kkill(0) that finds slot `i`, which stays out of use, and is not freed again, up to state `k`. */
  ghost predicate MarkedBy(states: seq<State>, acts: seq<Action>, i: nat, j: nat, k: nat) {
    && j < k < |states| == |acts| + 1 && i < NPROC && FindsUnused(states[j], acts[j], i)
    && forall m :: j < m < k ==> QuietAt(states, acts, i, m)
  }

  ghost predicate QuietAt(states: seq<State>, acts: seq<Action>, i: nat, m: nat) {
    && m < |acts| < |states| && i < |states[m].procs|
    && states[m].procs[i].state == UNUSED && !Frees(states[m], acts[m], i)
  }

  ghost predicate Marked(states: seq<State>, acts: seq<Action>, i: nat, k: nat) {
    exists j: nat {:trigger MarkedBy(states, acts, i, j, k)} :: MarkedBy(states, acts, i, j, k)
  }

  lemma MarkedNext(states: seq<State>, acts: seq<Action>, i: nat, k: nat)
    requires k < |acts| && |states| == |acts| + 1 && i < NPROC
    ensures Marked(states, acts, i, k + 1) <==>
            FindsUnused(states[k], acts[k], i) || (QuietAt(states, acts, i, k) && Marked(states, acts, i, k))
  {
    if FindsUnused(states[k], acts[k], i) {
      assert MarkedBy(states, acts, i, k, k + 1);
    } else if QuietAt(states, acts, i, k) && Marked(states, acts, i, k) {
      var j: nat :| MarkedBy(states, acts, i, j, k);
      assert MarkedBy(states, acts, i, j, k + 1);
    }
    if Marked(states, acts, i, k + 1) && !FindsUnused(states[k], acts[k], i) {
      var j: nat :| MarkedBy(states, acts, i, j, k + 1);
      assert MarkedBy(states, acts, i, j, k);
    }
  }

  /** In every run, a slot that is not in use is marked as killed if and only if a kkill(0) has found it since it was
      last freed. */
  lemma {:induction false} UnusedMarkedExactly(states: seq<State>, acts: seq<Action>, i: nat, k: nat)
    requires IsRun(states, acts) && k < |states| && i < NPROC && |states[k].procs| == NPROC
    requires states[k].procs[i].state == UNUSED
    ensures states[k].procs[i].killed <==> Marked(states, acts, i, k)
    decreases k
  {
    if k > 0 {
      RunInv(states, acts, k - 1);
      assert StepAt(states, acts, k - 1);
      MarkStep(states[k - 1], acts[k - 1], i);
      MarkedNext(states, acts, i, k - 1);
      if states[k - 1].procs[i].state == UNUSED {
        UnusedMarkedExactly(states, acts, i, k - 1);
      }
    }
  }

  /** A child is born killed if and only if a kkill(0) has found its slot since the slot was last freed. */
  lemma BornKilledExactly(states: seq<State>, acts: seq<Action>, k: nat, c: nat)
    requires IsRun(states, acts) && k < |acts| && acts[k] == ForkAlloc(true) && FirstUnused(states[k].procs) == Some(c)
    ensures |states[k + 1].procs| == NPROC && c < NPROC && states[k + 1].procs[c].state == USED
    ensures states[k + 1].procs[c].killed <==> Marked(states, acts, c, k)
  {
    RunInv(states, acts, k);
    assert StepAt(states, acts, k);
    var me := states[k].current.value;
    assert RunningOk(states[k].procs, states[k].current, me);
    UnusedMarkedExactly(states, acts, c, k);
  }
}
