/**
  The process table as a state machine on one processor.  A step is the stretch between two points at which
  another process or an interrupt may run.
 */
module ProcMachine {
  import opened Prelude
  import opened ProcTable

  /** `exited` and `reaped` record, per process id, the status given to kexit and the status given out by kwait. */
  datatype State = State(
    procs: Table,
    current: Option<nat>,
    init: nat,
    nextpid: int,
    ticket: nat,
    needBoost: bool,
    exited: map<int, int>,
    reaped: map<int, int>)

  datatype Action =
    | Dispatch                 // the scheduler's loop, once
    | Tick(boost: bool)        // the clock charges the running process, and may ask for a boost
    | Wakeup(id: nat)          // wakeup on a channel other than a process
    | Yield(fromTimer: bool)
    | Sleep(id: nat)
    | ForkAlloc(ok: bool)      // kfork up to the release of the child's lock; memory may run out
    | ForkLink                 // kfork sets the child's parent
    | ForkReady                // kfork makes the child runnable
    | Exit(status: int)        // kexit from wait_lock on
    | Wait(copyOk: bool)       // one scan of kwait; the copy of the status to the user may fail
    | Kill(pid: int)

  // ----- Steps -----

  predicate Live(s: ProcState) {
    s == SLEEPING || s == RUNNABLE || s == RUNNING
  }

  function Quantum(level: nat): nat {
    if level == 0 then 1 else if level == 1 then 2 else 4
  }

  /** Stamps are 32-bit. */
  function NextTicket(ticket: nat): nat {
    (ticket + 1) % 0x1_0000_0000
  }

  function Charged(p: Proc): Proc {
    if p.ticks + 1 >= Quantum(p.level)
    then p.(ticks := 0, level := if p.level < MLFQ_LEVELS - 1 then p.level + 1 else p.level)
    else p.(ticks := p.ticks + 1)
  }

  /** Giving up the processor before the time slice ends raises the process by one level. */
  function Rewarded(p: Proc): Proc {
    p.(level := if p.level > 0 then p.level - 1 else 0, ticks := 0)
  }

  function Dispatched(p: Proc, ticket: nat): Proc {
    p.(state := RUNNING, stamp := ticket, chan := NoChan)
  }

  function BoostedTable(s: State): (t: Table)
    ensures |t| == |s.procs|
  {
    if s.needBoost then BoostAll(s.procs) else s.procs
  }

  function DoDispatch(s: State): State {
    var t := BoostedTable(s);
    match BestOf(t, |t|)
    case None => s.(procs := t, needBoost := false)
    case Some(b) =>
      s.(procs := t[b := Dispatched(t[b], NextTicket(s.ticket))], current := Some(b), ticket := NextTicket(s.ticket),
         needBoost := false)
  }

  function DoTick(s: State, boost: bool): State
    requires s.current.Some? ==> s.current.value < |s.procs|
  {
    var t := if s.current.Some? then s.procs[s.current.value := Charged(s.procs[s.current.value])] else s.procs;
    s.(procs := t, needBoost := s.needBoost || boost)
  }

  function DoYield(s: State, me: nat, fromTimer: bool): State
    requires me < |s.procs|
  {
    var p := if fromTimer then s.procs[me] else Rewarded(s.procs[me]);
    s.(procs := s.procs[me := p.(state := RUNNABLE)], current := None)
  }

  function Asleep(p: Proc, chan: Chan, kont: Kont): Proc {
    Rewarded(p).(chan := chan, state := SLEEPING, kont := kont)
  }

  function DoSleep(s: State, me: nat, id: nat): State
    requires me < |s.procs|
  {
    s.(procs := s.procs[me := Asleep(s.procs[me], Other(id), Ready)], current := None)
  }

  /** allocproc takes the first free slot, and leaves whatever killed flag it finds there. */
  function DoForkAlloc(s: State, me: nat, ok: bool): State
    requires me < |s.procs|
  {
    match FirstUnused(s.procs)
    case None => s
    case Some(c) =>
      if !ok then s.(procs := s.procs[c := Unused()], nextpid := s.nextpid + 1)
      else
        var child := s.procs[c].(state := USED, pid := s.nextpid, level := 0, ticks := 0, stamp := 0);
        var t := s.procs[c := child];
        s.(procs := t[me := t[me].(kont := Forked(c))], nextpid := s.nextpid + 1)
  }

  function DoForkLink(s: State, me: nat, c: nat): State
    requires me < |s.procs| && c < |s.procs|
  {
    var t := s.procs[c := s.procs[c].(parent := Some(me))];
    s.(procs := t[me := t[me].(kont := Parented(c))])
  }

  function DoForkReady(s: State, me: nat, c: nat): State
    requires me < |s.procs| && c < |s.procs|
  {
    var t := s.procs[c := s.procs[c].(state := RUNNABLE)];
    s.(procs := t[me := t[me].(kont := Ready)])
  }

  /** The table after kexit has given the children away and woken the parent. */
  function Orphaned(t: Table, init: nat, me: nat): (r: Table)
    requires me < |t|
    ensures |r| == |t|
  {
    var t1 := Reparent(t, me, init, Some(me));
    WakeAll(t1, if t1[me].parent.Some? then ProcChan(t1[me].parent.value) else NoChan, Some(me))
  }

  function DoExit(s: State, me: nat, status: int): State
    requires me < |s.procs|
  {
    var t := Orphaned(s.procs, s.init, me);
    s.(procs := t[me := t[me].(xstate := status, state := ZOMBIE)], current := None,
       exited := s.exited[s.procs[me].pid := status])
  }

  function DoWait(s: State, me: nat, copyOk: bool): State
    requires me < |s.procs|
  {
    match FirstZombie(s.procs, me, 0)
    case Some(z) =>
      if !copyOk then s.(procs := s.procs[me := s.procs[me].(kont := Ready)])
      else
        var t := s.procs[z := Unused()];
        s.(procs := t[me := t[me].(kont := Ready)], reaped := s.reaped[s.procs[z].pid := s.procs[z].xstate])
    case None =>
      if !HasChild(s.procs, me) || s.procs[me].killed then s.(procs := s.procs[me := s.procs[me].(kont := Ready)])
      else s.(procs := s.procs[me := Asleep(s.procs[me], ProcChan(me), InWait)], current := None)
  }

  /** The first slot with a given pid; a slot that is not in use has pid 0. */
  function FindPid(t: Table, pid: int, k: nat): (r: Option<nat>)
    requires k <= |t|
    ensures r.Some? ==> k <= r.value < |t| && t[r.value].pid == pid
    ensures r.Some? ==> forall i :: k <= i < r.value ==> t[i].pid != pid
    ensures r.None? ==> forall i :: k <= i < |t| ==> t[i].pid != pid
    decreases |t| - k
  {
    if k == |t| then None else if t[k].pid == pid then Some(k) else FindPid(t, pid, k + 1)
  }

  function Doomed(p: Proc): Proc {
    if p.state == SLEEPING then p.(killed := true, state := RUNNABLE) else p.(killed := true)
  }

  function DoKill(s: State, pid: int): State {
    match FindPid(s.procs, pid, 0)
    case None => s
    case Some(i) => s.(procs := s.procs[i := Doomed(s.procs[i])])
  }

  /** Who may take a step: everything but the clock, wakeups and the scheduler is done by the running process. */
  predicate Enabled(s: State, a: Action) {
    if a.Dispatch? then s.current.None?
    else if a.Tick? || a.Wakeup? then s.current.Some? ==> s.current.value < |s.procs|
    else
      && s.current.Some? && s.current.value < |s.procs|
      && var me := s.current.value;
         var kont := s.procs[me].kont;
         match a
         case Yield(_) => true
         case ForkLink => kont.Forked? && kont.child < |s.procs|
         case ForkReady => kont.Parented? && kont.child < |s.procs|
         case Exit(_) => kont == Ready && me != s.init
         case Wait(_) => kont == Ready || kont == InWait
         case _ => kont == Ready
  }

  function Do(s: State, a: Action): State
    requires Enabled(s, a)
  {
    match a
    case Dispatch => DoDispatch(s)
    case Tick(boost) => DoTick(s, boost)
    case Wakeup(id) => s.(procs := WakeAll(s.procs, Other(id), s.current))
    case Yield(fromTimer) => DoYield(s, s.current.value, fromTimer)
    case Sleep(id) => DoSleep(s, s.current.value, id)
    case ForkAlloc(ok) => DoForkAlloc(s, s.current.value, ok)
    case ForkLink => DoForkLink(s, s.current.value, s.procs[s.current.value].kont.child)
    case ForkReady => DoForkReady(s, s.current.value, s.procs[s.current.value].kont.child)
    case Exit(status) => DoExit(s, s.current.value, status)
    case Wait(copyOk) => DoWait(s, s.current.value, copyOk)
    case Kill(pid) => DoKill(s, pid)
  }

  // ----- The invariant -----

  /** Process `i` is asleep in the loop of kwait. */
  predicate WaitsForChild(p: Proc, i: nat) {
    p.state == SLEEPING && p.chan == ProcChan(i)
  }

  /** Parents are live, and nobody asleep in kwait has a child that has exited. */
  ghost predicate FamilyOk(t: Table, init: nat, i: nat)
    requires i < |t|
  {
    var p := t[i];
    && (p.parent.Some? ==> i != init && p.parent.value != i && p.parent.value < |t| && Live(t[p.parent.value].state))
    && ((Live(p.state) || p.state == ZOMBIE) && i != init ==> p.parent.Some?)
    && (p.state == UNUSED ==> p.parent.None?)
    && (p.state == ZOMBIE && p.parent.Some? ==> !WaitsForChild(t[p.parent.value], p.parent.value))
  }

  /** A process in the middle of a fork is awake and its child is still being made. */
  ghost predicate KontOk(t: Table, i: nat)
    requires i < |t|
  {
    var p := t[i];
    && (!Live(p.state) ==> p.kont == Ready)
    && (p.kont.Forked? || p.kont.Parented? ==>
          p.state != SLEEPING && p.kont.child < |t| && t[p.kont.child].state == USED)
    && (p.kont.Parented? ==> t[p.kont.child].parent == Some(i))
    && (p.state == SLEEPING ==> (p.kont == InWait <==> p.chan.ProcChan?))
    && (p.state == SLEEPING && p.chan.ProcChan? ==> p.chan.slot == i)
  }

  ghost predicate RunningOk(t: Table, current: Option<nat>, i: nat)
    requires i < |t|
  {
    t[i].level < MLFQ_LEVELS && (t[i].state == RUNNING <==> current == Some(i))
  }

  /** Process ids are in use once, and the ledgers agree with the table. */
  ghost predicate PidOk(t: Table, nextpid: int, exited: map<int, int>, reaped: map<int, int>, i: nat)
    requires i < |t|
  {
    var p := t[i];
    && (p.state == UNUSED ==> p.pid == 0)
    && (p.state != UNUSED ==> 0 < p.pid < nextpid && p.pid !in reaped)
    && (p.state == ZOMBIE <==> p.pid in exited && p.pid !in reaped)
    && (p.state == ZOMBIE ==> exited[p.pid] == p.xstate)
  }

  predicate SamePid(t: Table, i: nat, j: nat) {
    i < |t| && j < |t| && t[i].state != UNUSED && t[j].state != UNUSED && t[i].pid == t[j].pid
  }

  predicate SameChild(t: Table, i: nat, j: nat) {
    && i < |t| && j < |t| && (t[i].kont.Forked? || t[i].kont.Parented?) && (t[j].kont.Forked? || t[j].kont.Parented?)
    && t[i].kont.child == t[j].kont.child
  }

  ghost predicate Families(t: Table, init: nat) {
    && init < |t| && Live(t[init].state)
    && forall i: nat {:trigger FamilyOk(t, init, i)} :: i < |t| ==> FamilyOk(t, init, i)
  }

  ghost predicate Konts(t: Table) {
    && (forall i: nat {:trigger KontOk(t, i)} :: i < |t| ==> KontOk(t, i))
    && (forall i: nat, j: nat {:trigger SameChild(t, i, j)} :: i < j < |t| ==> !SameChild(t, i, j))
  }

  ghost predicate Runs(t: Table, current: Option<nat>) {
    && (current.Some? ==> current.value < |t|)
    && forall i: nat {:trigger RunningOk(t, current, i)} :: i < |t| ==> RunningOk(t, current, i)
  }

  ghost predicate Pids(t: Table, nextpid: int, exited: map<int, int>, reaped: map<int, int>) {
    && (forall i: nat {:trigger PidOk(t, nextpid, exited, reaped, i)} ::
          i < |t| ==> PidOk(t, nextpid, exited, reaped, i))
    && (forall i: nat, j: nat {:trigger SamePid(t, i, j)} :: i < j < |t| ==> !SamePid(t, i, j))
    && nextpid > 0
    && (forall pid :: pid in exited ==> 0 < pid < nextpid)
    && (forall pid :: pid in reaped ==> pid in exited && exited[pid] == reaped[pid])
  }

  ghost predicate Inv(s: State) {
    && |s.procs| == NPROC
    && Families(s.procs, s.init) && Konts(s.procs) && Runs(s.procs, s.current)
    && Pids(s.procs, s.nextpid, s.exited, s.reaped)
  }

  // ----- Steps that leave the families alone -----

  /** A change that keeps who a process is and whether it is live, and puts nobody to sleep in kwait. */
  predicate Gentle(p: Proc, q: Proc) {
    && q.parent == p.parent && q.pid == p.pid && q.xstate == p.xstate && q.kont == p.kont
    && (q.state == p.state || (Live(p.state) && Live(q.state)))
    && (q.state == SLEEPING ==> (p.state == SLEEPING && q.chan == p.chan) || (q.chan.Other? && p.kont == Ready))
  }

  ghost predicate AllGentle(t: Table, t': Table) {
    |t'| == |t| && forall i: nat {:trigger Gentle(t[i], t'[i])} :: i < |t| ==> Gentle(t[i], t'[i])
  }

  lemma GentleFamilies(t: Table, t': Table, init: nat)
    requires Families(t, init) && AllGentle(t, t')
    ensures Families(t', init)
  {
    assert Gentle(t[init], t'[init]);
    forall i: nat | i < |t| ensures FamilyOk(t', init, i) {
      assert FamilyOk(t, init, i) && Gentle(t[i], t'[i]);
      if t[i].parent.Some? {
        assert Gentle(t[t[i].parent.value], t'[t[i].parent.value]);
      }
    }
  }

  lemma GentleKonts(t: Table, t': Table)
    requires Konts(t) && AllGentle(t, t')
    ensures Konts(t')
  {
    forall i: nat | i < |t| ensures KontOk(t', i) {
      assert KontOk(t, i) && Gentle(t[i], t'[i]);
      if t[i].kont.Forked? || t[i].kont.Parented? {
        assert Gentle(t[t[i].kont.child], t'[t[i].kont.child]);
      }
    }
    forall i: nat, j: nat | i < j < |t| ensures !SameChild(t', i, j) {
      assert !SameChild(t, i, j) && Gentle(t[i], t'[i]) && Gentle(t[j], t'[j]);
    }
  }

  lemma GentlePids(t: Table, t': Table, nextpid: int, exited: map<int, int>, reaped: map<int, int>)
    requires Pids(t, nextpid, exited, reaped) && AllGentle(t, t')
    ensures Pids(t', nextpid, exited, reaped)
  {
    forall i: nat | i < |t| ensures PidOk(t', nextpid, exited, reaped, i) {
      assert PidOk(t, nextpid, exited, reaped, i) && Gentle(t[i], t'[i]);
    }
    forall i: nat, j: nat | i < j < |t| ensures !SamePid(t', i, j) {
      assert !SamePid(t, i, j) && Gentle(t[i], t'[i]) && Gentle(t[j], t'[j]);
    }
  }

  lemma GentleKeeps(s: State, s': State)
    requires Inv(s) && AllGentle(s.procs, s'.procs) && Runs(s'.procs, s'.current)
    requires s' == s.(procs := s'.procs, current := s'.current, ticket := s'.ticket, needBoost := s'.needBoost)
    ensures Inv(s')
  {
    GentleFamilies(s.procs, s'.procs, s.init);
    GentleKonts(s.procs, s'.procs);
    GentlePids(s.procs, s'.procs, s.nextpid, s.exited, s.reaped);
  }

  lemma BoostGentle(s: State)
    requires Inv(s)
    ensures AllGentle(s.procs, BoostedTable(s)) && Runs(BoostedTable(s), s.current)
  {
    var t := BoostedTable(s);
    forall i: nat | i < NPROC ensures Gentle(s.procs[i], t[i]) && RunningOk(t, s.current, i) {
      assert RunningOk(s.procs, s.current, i);
    }
  }

  lemma DispatchGentle(s: State)
    requires Inv(s) && s.current.None?
    ensures var s' := DoDispatch(s); AllGentle(s.procs, s'.procs) && Runs(s'.procs, s'.current)
  {
    BoostGentle(s);
    var t, s' := BoostedTable(s), DoDispatch(s);
    forall i: nat | i < NPROC ensures Gentle(s.procs[i], s'.procs[i]) && RunningOk(s'.procs, s'.current, i) {
      assert Gentle(s.procs[i], t[i]) && RunningOk(t, None, i);
    }
  }

  /** A step that touches the running process only. */
  lemma OneGentle(s: State, me: nat, p: Proc, current: Option<nat>)
    requires Inv(s) && s.current == Some(me) && Gentle(s.procs[me], p) && p.level < MLFQ_LEVELS
    requires (current == Some(me) && p.state == RUNNING) || (current == None && p.state != RUNNING)
    ensures AllGentle(s.procs, s.procs[me := p]) && Runs(s.procs[me := p], current)
  {
    forall i: nat | i < NPROC
      ensures Gentle(s.procs[i], s.procs[me := p][i]) && RunningOk(s.procs[me := p], current, i)
    {
      assert RunningOk(s.procs, s.current, i);
    }
  }

  /** `q` is `p`, perhaps marked as killed, perhaps woken. */
  predicate Stirred(p: Proc, q: Proc) {
    && (q.state == p.state || (p.state == SLEEPING && q.state == RUNNABLE))
    && q == p.(killed := q.killed, state := q.state)
  }

  /** A step that wakes or marks some processes. */
  lemma WakersGentle(s: State, t: Table)
    requires Inv(s) && |t| == NPROC && forall i :: 0 <= i < NPROC ==> Stirred(s.procs[i], t[i])
    ensures AllGentle(s.procs, t) && Runs(t, s.current)
  {
    forall i: nat | i < NPROC ensures Gentle(s.procs[i], t[i]) && RunningOk(t, s.current, i) {
      assert RunningOk(s.procs, s.current, i);
    }
  }

  lemma TickGentle(s: State, boost: bool)
    requires Inv(s)
    ensures var s' := DoTick(s, boost); AllGentle(s.procs, s'.procs) && Runs(s'.procs, s'.current)
  {
    if s.current.Some? {
      assert RunningOk(s.procs, s.current, s.current.value);
      OneGentle(s, s.current.value, Charged(s.procs[s.current.value]), s.current);
    } else {
      WakersGentle(s, s.procs);
    }
  }

  lemma LeaveGentle(s: State, me: nat, p: Proc)
    requires Inv(s) && s.current == Some(me)
    requires p == s.procs[me].(state := RUNNABLE) || p == Rewarded(s.procs[me]).(state := RUNNABLE)
             || (s.procs[me].kont == Ready && exists id :: p == Asleep(s.procs[me], Other(id), Ready))
    ensures AllGentle(s.procs, s.procs[me := p]) && Runs(s.procs[me := p], None)
  {
    assert RunningOk(s.procs, s.current, me);
    OneGentle(s, me, p, None);
  }

  lemma KillGentle(s: State, pid: int)
    requires Inv(s)
    ensures AllGentle(s.procs, DoKill(s, pid).procs) && Runs(DoKill(s, pid).procs, s.current)
  {
    WakersGentle(s, DoKill(s, pid).procs);
  }

  lemma SchedulingGentle(s: State, a: Action)
    requires Inv(s) && Enabled(s, a) && (a.Dispatch? || a.Tick? || a.Wakeup? || a.Yield? || a.Sleep? || a.Kill?)
    ensures AllGentle(s.procs, Do(s, a).procs) && Runs(Do(s, a).procs, Do(s, a).current)
  {
    match a
    case Dispatch => DispatchGentle(s);
    case Tick(boost) => TickGentle(s, boost);
    case Wakeup(id) => WakersGentle(s, WakeAll(s.procs, Other(id), s.current));
    case Yield(_) => LeaveGentle(s, s.current.value, Do(s, a).procs[s.current.value]);
    case Sleep(id) => LeaveGentle(s, s.current.value, Asleep(s.procs[s.current.value], Other(id), Ready));
    case Kill(pid) => KillGentle(s, pid);
  }

  lemma SchedulingKeeps(s: State, a: Action)
    requires Inv(s) && Enabled(s, a) && (a.Dispatch? || a.Tick? || a.Wakeup? || a.Yield? || a.Sleep? || a.Kill?)
    ensures Inv(Do(s, a))
  {
    SchedulingGentle(s, a);
    GentleKeeps(s, Do(s, a));
  }
}
