/**
  The passes of the O1 optimiser as values: what each pass computes, and the proof that it leaves a function
  observationally as it was.  The passes are composed in O1; the loops that compute them are in OptimizerLoops.
 */
module Optimizer {
  import opened Prelude
  import opened IR
  import opened PassSimulation
  import opened Simplify

  // ----- Constant propagation -----

  /** What is put out for an instruction, and what is known after it. */
  datatype Visit = Visit(out: Code, env: Env)

  /** A store to an array forgets every array name; a store to a scalar forgets that scalar. */
  function Invalidate(env: Env, target: Target, arrays: set<string>): Env {
    match target
    case VarTarget(x) => env - {x}
    case ArrTarget(a, _) => env - {a} - arrays
  }

  function Learn(env: Env, target: Target, e: Expr): Env {
    if target.VarTarget? && e.Int? then env[target.name := e.value] else env
  }

  function VisitTarget(ops: Ops, target: Option<Target>, env: Env): Option<Option<Target>> {
    match target
    case Some(ArrTarget(a, i)) =>
      var i' :- FixedPoint(ops, i, env);
      Some(Some(ArrTarget(a, i')))
    case _ => Some(target)
  }

  function VisitInstr(ops: Ops, arrays: set<string>, ins: Instr, env: Env): Option<Visit> {
    match ins
    case Label(_) => Some(Visit([ins], map[]))
    case Goto(_) => Some(Visit([ins], map[]))
    case IfGoto(c, l) =>
      var c' :- FixedPoint(ops, c, env);
      Some(Visit(if !c'.Int? then [IfGoto(c', l)] else if c'.value != 0 then [Goto(l)] else [], map[]))
    case Assign(target, e) =>
      var e' :- FixedPoint(ops, e, env);
      Some(Visit([Assign(target, e')], Learn(Invalidate(env, target, arrays), target, e')))
    case ArrayZero(a, _) => Some(Visit([ins], env - {a}))
    case CallInstr(f, args, result) =>
      var args' :- FixedPointAll(ops, args, env);
      var result' :- VisitTarget(ops, result, env);
      Some(Visit([CallInstr(f, args', result')],
                 if result.Some? then Invalidate(env, result.value, arrays) else env))
    case WriteConst(_, _, _) => Some(Visit([ins], env))
    case WriteExpr(e) =>
      var e' :- FixedPoint(ops, e, env);
      Some(Visit([WriteExpr(e')], env))
    case PauseExpr(e) =>
      var e' :- FixedPoint(ops, e, env);
      Some(Visit([PauseExpr(e')], env))
    case ExitExpr(e) =>
      var e' :- FixedPoint(ops, e, env);
      Some(Visit([ExitExpr(e')], env))
    case ReturnExpr(e) =>
      var e' :- FixedPoint(ops, e, env);
      Some(Visit([ReturnExpr(e')], env))
  }

  /** Simplifying this instruction discards no call. */
  predicate VisitKeepsCalls(ops: Ops, ins: Instr, env: Env) {
    match ins
    case IfGoto(c, _) => FixKeepsCalls(ops, c, env)
    case Assign(_, e) => FixKeepsCalls(ops, e, env)
    case CallInstr(_, args, result) =>
      && FixKeepsCallsAll(ops, args, env)
      && (result.Some? && result.value.ArrTarget? ==> FixKeepsCalls(ops, result.value.index, env))
    case WriteExpr(e) => FixKeepsCalls(ops, e, env)
    case PauseExpr(e) => FixKeepsCalls(ops, e, env)
    case ExitExpr(e) => FixKeepsCalls(ops, e, env)
    case ReturnExpr(e) => FixKeepsCalls(ops, e, env)
    case _ => true
  }

  datatype Visits = Visits(outs: seq<Code>, env: Env)

  /** The outputs for a whole list, and what is known at its end. */
  function VisitAll(ops: Ops, arrays: set<string>, code: Code): (r: Option<Visits>)
    ensures r.Some? ==> |r.value.outs| == |code|
  {
    if code == [] then Some(Visits([], map[]))
    else
      var before :- VisitAll(ops, arrays, code[..|code| - 1]);
      var last :- VisitInstr(ops, arrays, code[|code| - 1], before.env);
      Some(Visits(before.outs + [last.out], last.env))
  }

  function ConstProp(ops: Ops, arrays: set<string>, code: Code): Option<Code> {
    var vs :- VisitAll(ops, arrays, code);
    Some(Flatten(vs.outs))
  }

  predicate ConstPropKeepsCalls(ops: Ops, arrays: set<string>, code: Code) {
    code != [] ==>
      && ConstPropKeepsCalls(ops, arrays, code[..|code| - 1])
      && var before := VisitAll(ops, arrays, code[..|code| - 1]);
         before.Some? ==> VisitKeepsCalls(ops, code[|code| - 1], before.value.env)
  }

  /** The visit of an instruction sees what the visits before it learnt. */
  lemma {:induction false} VisitAt(ops: Ops, arrays: set<string>, code: Code, i: nat)
    requires VisitAll(ops, arrays, code).Some? && i < |code|
    ensures VisitAll(ops, arrays, code[..i]).Some? && VisitAll(ops, arrays, code[..i + 1]).Some?
    ensures var before := VisitAll(ops, arrays, code[..i]).value;
            VisitInstr(ops, arrays, code[i], before.env)
            == Some(Visit(VisitAll(ops, arrays, code).value.outs[i], VisitAll(ops, arrays, code[..i + 1]).value.env))
    decreases |code|
  {
    var n := |code| - 1;
    if i == n {
      assert code[..i + 1] == code;
    } else {
      VisitAt(ops, arrays, code[..n], i);
      assert code[..n][..i] == code[..i] && code[..n][..i + 1] == code[..i + 1];
    }
  }

  lemma KeepsLast(ops: Ops, arrays: set<string>, code: Code)
    requires ConstPropKeepsCalls(ops, arrays, code) && code != []
    ensures ConstPropKeepsCalls(ops, arrays, code[..|code| - 1])
    ensures var before := VisitAll(ops, arrays, code[..|code| - 1]);
            before.Some? ==> VisitKeepsCalls(ops, code[|code| - 1], before.value.env)
  {
  }

  /** The calls of every instruction are kept under what the visits before it learnt. */
  lemma {:induction false} VisitKeepsAt(ops: Ops, arrays: set<string>, code: Code, i: nat)
    requires ConstPropKeepsCalls(ops, arrays, code) && i < |code| && VisitAll(ops, arrays, code[..i]).Some?
    ensures VisitKeepsCalls(ops, code[i], VisitAll(ops, arrays, code[..i]).value.env)
    decreases |code|
  {
    var n := |code| - 1;
    KeepsLast(ops, arrays, code);
    if i < n {
      assert code[..n][..i] == code[..i];
      VisitKeepsAt(ops, arrays, code[..n], i);
    }
  }

  lemma StoreKeepsKnown(m: Machine, arrays: set<string>, target: Target, v: int, env: Env, s: Store, t: Trace)
    requires Consistent(env, s)
    ensures Consistent(Invalidate(env, target, arrays), StoreTo(m, target, v, s, t).s)
  {
  }

  /** What is put out has at most one instruction and no label but the one visited. */
  lemma VisitShape(ops: Ops, arrays: set<string>, ins: Instr, env: Env)
    requires VisitInstr(ops, arrays, ins, env).Some?
    ensures var out := VisitInstr(ops, arrays, ins, env).value.out;
            |out| <= 1 && (|out| == 1 && out[0].Label? ==> out[0] == ins) && (ins.Label? ==> out == [ins])
  {
  }

  /** One visited instruction acts as before, and what is known stays true. */
  lemma VisitSound(m: Machine, arrays: set<string>, ins: Instr, env: Env, s: Store, t: Trace)
    requires Lawful(m.ops) && VisitInstr(m.ops, arrays, ins, env).Some? && VisitKeepsCalls(m.ops, ins, env)
    requires ins.Label? || Consistent(env, s)
    ensures var v := VisitInstr(m.ops, arrays, ins, env).value;
            && (if v.out == [] then Exec(m, ins, s, t) == Next(s, t) else Exec(m, v.out[0], s, t) == Exec(m, ins, s, t))
            && (Exec(m, ins, s, t).Next? ==> Consistent(v.env, Exec(m, ins, s, t).s))
  {
    match ins
    case IfGoto(c, _) => FixedPointSound(m, c, env, s, t);
    case Assign(target, e) =>
      FixedPointSound(m, e, env, s, t);
      var (v, t1) := Eval(m, e, s, t);
      StoreKeepsKnown(m, arrays, target, v, env, s, t1);
    case CallInstr(f, args, result) =>
      FixedPointAllSound(m, args, env, s, t);
      var (v, t1) := Eval(m, Call(f, args), s, t);
      if result.Some? {
        StoreKeepsKnown(m, arrays, result.value, v, env, s, t1);
      }
      if result.Some? && result.value.ArrTarget? {
        FixedPointSound(m, result.value.index, env, s, t1);
      }
    case WriteExpr(e) => FixedPointSound(m, e, env, s, t);
    case PauseExpr(e) => FixedPointSound(m, e, env, s, t);
    case ExitExpr(e) => FixedPointSound(m, e, env, s, t);
    case ReturnExpr(e) => FixedPointSound(m, e, env, s, t);
    case _ =>
  }

  ghost predicate KnownAt(ops: Ops, arrays: set<string>, code: Code, i: nat, s: Store) {
    i < |code| && !code[i].Label? && VisitAll(ops, arrays, code[..i]).Some? ==>
      Consistent(VisitAll(ops, arrays, code[..i]).value.env, s)
  }

  lemma VisitLocal(ops: Ops, arrays: set<string>, code: Code)
    requires VisitAll(ops, arrays, code).Some?
    ensures Local(code, VisitAll(ops, arrays, code).value.outs)
    ensures forall i :: 0 <= i < |code| && code[i].Label? ==> VisitAll(ops, arrays, code).value.outs[i] == [code[i]]
  {
    forall i | 0 <= i < |code|
      ensures var out := VisitAll(ops, arrays, code).value.outs[i];
              && |out| <= 1 && (|out| == 1 && out[0].Label? ==> out[0] == code[i])
              && (code[i].Label? ==> out == [code[i]])
    {
      VisitAt(ops, arrays, code, i);
      VisitShape(ops, arrays, code[i], VisitAll(ops, arrays, code[..i]).value.env);
    }
  }

  lemma ConstPropMatches(m: Machine, arrays: set<string>, code: Code, rel: Rel, i: nat, a: Store, t: Trace)
    requires Lawful(m.ops) && VisitAll(m.ops, arrays, code).Some? && ConstPropKeepsCalls(m.ops, arrays, code)
    requires forall k, x, y :: rel(k, x, y) <==> x == y && KnownAt(m.ops, arrays, code, k, x)
    requires i < |code| && rel(i, a, a)
    ensures Matches(m, code, VisitAll(m.ops, arrays, code).value.outs, rel, i, a, a, t)
  {
    VisitLocal(m.ops, arrays, code);
    VisitAt(m.ops, arrays, code, i);
    VisitKeepsAt(m.ops, arrays, code, i);
    VisitSound(m, arrays, code[i], VisitAll(m.ops, arrays, code[..i]).value.env, a, t);
  }

  /** Constant propagation that discards no call preserves meaning. */
  lemma ConstPropEquivalent(m: Machine, arrays: set<string>, code: Code)
    requires Lawful(m.ops) && ConstProp(m.ops, arrays, code).Some? && ConstPropKeepsCalls(m.ops, arrays, code)
    ensures Equivalent(m, code, ConstProp(m.ops, arrays, code).value)
    ensures UniqueLabels(code) ==> UniqueLabels(ConstProp(m.ops, arrays, code).value)
  {
    var outs := VisitAll(m.ops, arrays, code).value.outs;
    var rel: Rel := (k: nat, x, y) => x == y && KnownAt(m.ops, arrays, code, k, x);
    VisitLocal(m.ops, arrays, code);
    forall i: nat, a, b, t | i < |code| && rel(i, a, b) ensures Matches(m, code, outs, rel, i, a, b, t) {
      ConstPropMatches(m, arrays, code, rel, i, a, t);
    }
    assert Simulates(m, code, outs, rel);
    SimulationEquivalent(m, code, outs, rel);
    if UniqueLabels(code) {
      UniqueLabelsKept(code, outs);
    }
  }

  // ----- Dead branches -----

  function DeadBranchOut(ins: Instr): Code {
    if ins.IfGoto? && ins.cond.Int? then
      if ins.cond.value != 0 then [Goto(ins.dest)] else []
    else [ins]
  }

  function DeadBranchOuts(code: Code): seq<Code> {
    seq(|code|, i requires 0 <= i < |code| => DeadBranchOut(code[i]))
  }

  function RemoveDeadBranches(code: Code): Code {
    Flatten(DeadBranchOuts(code))
  }

  lemma DeadBranchesEquivalent(m: Machine, code: Code)
    ensures Equivalent(m, code, RemoveDeadBranches(code))
    ensures UniqueLabels(code) ==> UniqueLabels(RemoveDeadBranches(code))
  {
    var rel: Rel := (k: nat, x, y) => x == y;
    assert Simulates(m, code, DeadBranchOuts(code), rel);
    SimulationEquivalent(m, code, DeadBranchOuts(code), rel);
    if UniqueLabels(code) {
      UniqueLabelsKept(code, DeadBranchOuts(code));
    }
  }

  // ----- Filters -----

  /** A pass that only drops instructions. */
  ghost function Kept(code: Code, keep: nat -> bool): seq<Code> {
    seq(|code|, i requires 0 <= i < |code| => if keep(i) then [code[i]] else [])
  }

  lemma KeptUniqueLabels(code: Code, keep: nat -> bool)
    requires UniqueLabels(code)
    ensures UniqueLabels(Flatten(Kept(code, keep)))
  {
    UniqueLabelsKept(code, Kept(code, keep));
  }

  // ----- Unreachable code -----

  function LabelTargets(code: Code, l: string): set<nat> {
    match LabelIndex(code, l)
    case Some(k) => {k}
    case None => {}
  }

  /** Where control may go from `i`; `|code|` is falling off the end. */
  function Follow(code: Code, i: nat): set<nat>
    requires i < |code|
  {
    match code[i]
    case Goto(l) => LabelTargets(code, l)
    case IfGoto(_, l) => LabelTargets(code, l) + {i + 1}
    case ExitExpr(_) => {}
    case ReturnExpr(_) => {}
    case _ => {i + 1}
  }

  ghost predicate IsPath(code: Code, p: seq<nat>) {
    && p != []
    && (forall k :: 0 <= k < |p| ==> p[k] < |code|)
    && (forall k :: 0 <= k < |p| - 1 ==> p[k + 1] in Follow(code, p[k]))
  }

  ghost predicate Reachable(code: Code, i: nat) {
    exists p :: IsPath(code, p) && p[0] == 0 && p[|p| - 1] == i
  }

  lemma ReachableStep(code: Code, i: nat, j: nat)
    requires Reachable(code, i) && j < |code| && i < |code| && j in Follow(code, i)
    ensures Reachable(code, j)
  {
    var p :| IsPath(code, p) && p[0] == 0 && p[|p| - 1] == i;
    var q := p + [j];
    assert IsPath(code, q) && q[0] == 0 && q[|q| - 1] == j;
  }

  lemma ReachableStart(code: Code)
    requires code != []
    ensures Reachable(code, 0)
  {
    assert IsPath(code, [0]) && [0][0] == 0 && [0][|[0]| - 1] == 0;
  }

  ghost function RemoveUnreachable(code: Code): Code {
    Flatten(Kept(code, (i: nat) => Reachable(code, i)))
  }

  lemma UnreachableEquivalent(m: Machine, code: Code)
    ensures Equivalent(m, code, RemoveUnreachable(code))
    ensures UniqueLabels(code) ==> UniqueLabels(RemoveUnreachable(code))
  {
    var outs := Kept(code, (i: nat) => Reachable(code, i));
    var rel: Rel := (k: nat, x, y) => x == y && (k < |code| ==> Reachable(code, k));
    if code != [] {
      ReachableStart(code);
    }
    forall i: nat, a, b, t | i < |code| && rel(i, a, b) ensures Matches(m, code, outs, rel, i, a, b, t) {
      forall j | j in Follow(code, i) && j < |code| ensures Reachable(code, j) {
        ReachableStep(code, i, j);
      }
    }
    assert Simulates(m, code, outs, rel);
    SimulationEquivalent(m, code, outs, rel);
    if UniqueLabels(code) {
      KeptUniqueLabels(code, (i: nat) => Reachable(code, i));
    }
  }

  // ----- Dead stores -----

  function TargetReads(target: Target): set<string> {
    if target.ArrTarget? then Reads(target.index) else {}
  }

  function TargetDefs(target: Target): set<string> {
    if target.VarTarget? then {target.name} else {}
  }

  function Uses(ins: Instr): set<string> {
    match ins
    case IfGoto(c, _) => Reads(c)
    case Assign(target, e) => Reads(e) + TargetReads(target)
    case CallInstr(_, args, result) => ReadsAll(args) + (if result.Some? then TargetReads(result.value) else {})
    case WriteExpr(e) => Reads(e)
    case PauseExpr(e) => Reads(e)
    case ExitExpr(e) => Reads(e)
    case ReturnExpr(e) => Reads(e)
    case _ => {}
  }

  function Defs(ins: Instr): set<string> {
    match ins
    case Assign(target, _) => TargetDefs(target)
    case CallInstr(_, _, result) => if result.Some? then TargetDefs(result.value) else {}
    case _ => {}
  }

  /** A path along which `x` is not redefined before it is used at the end. */
  ghost predicate LivePath(code: Code, p: seq<nat>, x: string) {
    && IsPath(code, p)
    && (forall k :: 0 <= k < |p| - 1 ==> x !in Defs(code[p[k]]))
    && x in Uses(code[p[|p| - 1]])
  }

  /** The value that `x` holds just before `i` may still be used. */
  ghost predicate LiveIn(code: Code, i: nat, x: string) {
    exists p :: LivePath(code, p, x) && p[0] == i
  }

  /** The value that `x` holds just after `i` may still be used. */
  ghost predicate LiveOut(code: Code, i: nat, x: string)
    requires i < |code|
  {
    exists j :: j in Follow(code, i) && LiveIn(code, j, x)
  }

  /** Liveness solves the equation that the analysis iterates. */
  lemma LivenessEquation(code: Code, i: nat, x: string)
    requires i < |code|
    ensures LiveIn(code, i, x) <==> x in Uses(code[i]) || (LiveOut(code, i, x) && x !in Defs(code[i]))
  {
    if x in Uses(code[i]) {
      assert LivePath(code, [i], x) && [i][0] == i;
    } else if LiveOut(code, i, x) && x !in Defs(code[i]) {
      var j :| j in Follow(code, i) && LiveIn(code, j, x);
      var p :| LivePath(code, p, x) && p[0] == j;
      var q := [i] + p;
      forall k | 0 <= k < |q| - 1 ensures q[k + 1] in Follow(code, q[k]) && x !in Defs(code[q[k]]) {
        if k > 0 {
          assert q[k] == p[k - 1] && q[k + 1] == p[k - 1 + 1];
        }
      }
      assert LivePath(code, q, x) && q[0] == i;
    }
    if LiveIn(code, i, x) {
      var p :| LivePath(code, p, x) && p[0] == i;
      if |p| > 1 {
        var q := p[1..];
        assert p[0 + 1] in Follow(code, p[0]);
        forall k | 0 <= k < |q| - 1 ensures q[k + 1] in Follow(code, q[k]) && x !in Defs(code[q[k]]) {
          assert q[k] == p[k + 1] && q[k + 1] == p[k + 1 + 1];
        }
        assert LivePath(code, q, x) && q[0] == p[1];
      }
    }
  }

  predicate SideEffectFree(e: Expr)
    decreases e
  {
    match e
    case Int(_) => true
    case Var(_) => true
    case Arr(_, i) => SideEffectFree(i)
    case Call(_, _) => false
    case Unary(_, x) => SideEffectFree(x)
    case Binop(op, l, r) =>
      && ((op == Div || op == Mod) ==> r.Int? && r.value != 0)
      && SideEffectFree(l) && SideEffectFree(r)
  }

  lemma {:induction false} SideEffectFreeIsCallFree(e: Expr)
    requires SideEffectFree(e)
    ensures CallFree(e)
  {
    match e
    case Int(_) =>
    case Var(_) =>
    case Arr(_, i) => SideEffectFreeIsCallFree(i);
    case Unary(_, x) => SideEffectFreeIsCallFree(x);
    case Binop(_, l, r) =>
      SideEffectFreeIsCallFree(l);
      SideEffectFreeIsCallFree(r);
  }

  ghost predicate DeadStore(code: Code, i: nat)
    requires i < |code|
  {
    && code[i].Assign? && code[i].target.VarTarget?
    && !LiveOut(code, i, code[i].target.name)
    && SideEffectFree(code[i].expr)
  }

  ghost function RemoveDeadStores(code: Code): Code {
    Flatten(Kept(code, (i: nat) => i < |code| && !DeadStore(code, i)))
  }

  ghost predicate LiveAgree(code: Code, i: nat, a: Store, b: Store) {
    && a.cells == b.cells
    && forall x :: i < |code| && LiveIn(code, i, x) ==> Read(a, x) == Read(b, x)
  }

  lemma LiveMeansAgree(code: Code, i: nat, a: Store, b: Store, x: string)
    requires i < |code| && LiveAgree(code, i, a, b)
    ensures x in Uses(code[i]) || (LiveOut(code, i, x) && x !in Defs(code[i])) ==> Read(a, x) == Read(b, x)
  {
    LivenessEquation(code, i, x);
  }

  /** A stored value leaves agreement on what is live after the store. */
  lemma StoreStep(m: Machine, code: Code, i: nat, target: Target, v: int, a: Store, b: Store, t: Trace)
    requires i < |code| && LiveAgree(code, i, a, b)
    requires Follow(code, i) == {i + 1} && Defs(code[i]) == TargetDefs(target) && TargetReads(target) <= Uses(code[i])
    ensures var ea, eb := StoreTo(m, target, v, a, t), StoreTo(m, target, v, b, t);
            eb.t == ea.t && LiveAgree(code, i + 1, ea.s, eb.s)
  {
    forall x ensures x in Uses(code[i]) || (LiveOut(code, i, x) && x !in Defs(code[i])) ==> Read(a, x) == Read(b, x) {
      LiveMeansAgree(code, i, a, b, x);
    }
    if target.ArrTarget? {
      EvalAgree(m, target.index, a, b, t);
    }
  }

  /** Frames that agree on what is live take the same step and agree on what is live after it. */
  lemma LiveStep(m: Machine, code: Code, i: nat, a: Store, b: Store, t: Trace)
    requires i < |code| && LiveAgree(code, i, a, b)
    ensures var ea, eb := Exec(m, code[i], a, t), Exec(m, code[i], b, t);
            match ea
            case Halt(_, _) => eb == ea
            case Next(a', t') => eb.Next? && eb.t == t' && LiveAgree(code, i + 1, a', eb.s)
            case Jump(l, a', t') =>
              && eb.Jump? && eb.dest == l && eb.t == t'
              && forall k :: k in LabelTargets(code, l) ==> LiveAgree(code, k, a', eb.s)
  {
    forall x ensures x in Uses(code[i]) || (LiveOut(code, i, x) && x !in Defs(code[i])) ==> Read(a, x) == Read(b, x) {
      LiveMeansAgree(code, i, a, b, x);
    }
    if i + 1 in Follow(code, i) && Defs(code[i]) == {} {
      forall x | LiveIn(code, i + 1, x) ensures Read(a, x) == Read(b, x) {
        assert LiveOut(code, i, x);
        LiveMeansAgree(code, i, a, b, x);
      }
    }
    match code[i]
    case IfGoto(c, _) => EvalAgree(m, c, a, b, t);
    case Assign(target, e) =>
      EvalAgree(m, e, a, b, t);
      var (v, t1) := Eval(m, e, a, t);
      StoreStep(m, code, i, target, v, a, b, t1);
    case CallInstr(f, args, result) =>
      EvalAllAgree(m, args, a, b, t);
      var (v, t1) := Eval(m, Call(f, args), a, t);
      assert Eval(m, Call(f, args), b, t) == (v, t1);
      if result.Some? {
        StoreStep(m, code, i, result.value, v, a, b, t1);
      }
    case WriteExpr(e) => EvalAgree(m, e, a, b, t);
    case PauseExpr(e) => EvalAgree(m, e, a, b, t);
    case ExitExpr(e) => EvalAgree(m, e, a, b, t);
    case ReturnExpr(e) => EvalAgree(m, e, a, b, t);
    case _ =>
  }

  /** A dead store may be skipped. */
  lemma DeadStoreStep(m: Machine, code: Code, i: nat, a: Store, b: Store, t: Trace)
    requires i < |code| && LiveAgree(code, i, a, b) && DeadStore(code, i)
    ensures var ea := Exec(m, code[i], a, t);
            ea.Next? && ea.t == t && LiveAgree(code, i + 1, ea.s, b)
  {
    SideEffectFreeIsCallFree(code[i].expr);
    CallFreeSilent(m, code[i].expr, a, t);
    forall x | i + 1 < |code| && LiveIn(code, i + 1, x)
      ensures x != code[i].target.name && Read(a, x) == Read(b, x)
    {
      assert LiveOut(code, i, x);
      LivenessEquation(code, i, x);
    }
  }

  lemma DeadStoresEquivalent(m: Machine, code: Code)
    ensures Equivalent(m, code, RemoveDeadStores(code))
    ensures UniqueLabels(code) ==> UniqueLabels(RemoveDeadStores(code))
  {
    var outs := Kept(code, (i: nat) => i < |code| && !DeadStore(code, i));
    var rel: Rel := (k: nat, x, y) => LiveAgree(code, k, x, y);
    forall i: nat, a, b, t | i < |code| && rel(i, a, b) ensures Matches(m, code, outs, rel, i, a, b, t) {
      if DeadStore(code, i) {
        DeadStoreStep(m, code, i, a, b, t);
      } else {
        LiveStep(m, code, i, a, b, t);
      }
    }
    assert Simulates(m, code, outs, rel);
    SimulationEquivalent(m, code, outs, rel);
    if UniqueLabels(code) {
      KeptUniqueLabels(code, (i: nat) => i < |code| && !DeadStore(code, i));
    }
  }

  // ----- Jump cleanup -----

  predicate JumpToNext(code: Code, i: nat) {
    i + 1 < |code| && code[i].Goto? && code[i + 1] == Label(code[i].dest)
  }

  predicate JumpsTo(ins: Instr, l: string) {
    (ins.Goto? && ins.dest == l) || (ins.IfGoto? && ins.dest == l)
  }

  predicate UnusedLabel(code: Code, i: nat) {
    i < |code| && code[i].Label? && forall k :: 0 <= k < |code| ==> !JumpsTo(code[k], code[i].name)
  }

  ghost function DropJumps(code: Code): Code {
    Flatten(Kept(code, (i: nat) => !JumpToNext(code, i)))
  }

  ghost function DropLabels(code: Code): Code {
    Flatten(Kept(code, (i: nat) => !UnusedLabel(code, i)))
  }

  lemma DropJumpsEquivalent(m: Machine, code: Code)
    requires UniqueLabels(code)
    ensures Equivalent(m, code, DropJumps(code)) && UniqueLabels(DropJumps(code))
  {
    var rel: Rel := (k: nat, x, y) => x == y;
    forall i: nat | JumpToNext(code, i) ensures LabelIndex(code, code[i].dest) == Some(i + 1) {
      LabelFound(code, i + 1, code[i].dest);
    }
    assert Simulates(m, code, Kept(code, (i: nat) => !JumpToNext(code, i)), rel);
    SimulationEquivalent(m, code, Kept(code, (i: nat) => !JumpToNext(code, i)), rel);
    KeptUniqueLabels(code, (i: nat) => !JumpToNext(code, i));
  }

  lemma DropLabelsEquivalent(m: Machine, code: Code)
    requires UniqueLabels(code)
    ensures Equivalent(m, code, DropLabels(code)) && UniqueLabels(DropLabels(code))
  {
    var outs := Kept(code, (i: nat) => !UnusedLabel(code, i));
    var rel: Rel := (k: nat, x, y) => x == y;
    forall i: nat, a, b, t | i < |code| && rel(i, a, b) ensures Matches(m, code, outs, rel, i, a, b, t) {
      var ea := Exec(m, code[i], a, t);
      if ea.Jump? {
        assert JumpsTo(code[i], ea.dest);
      }
    }
    assert Simulates(m, code, outs, rel);
    SimulationEquivalent(m, code, outs, rel);
    KeptUniqueLabels(code, (i: nat) => !UnusedLabel(code, i));
  }
}
