/** Running lowered code is running the structured program, for every program and every amount of fuel. */
module LoweringProof {
  import opened Prelude
  import opened IR
  import opened Lowering
  import opened Simplify

  // ----- Conditions on the source -----

  /** Compound assignments find their place twice in the emitted code, so its index must not call; an
      expression statement is a call, which is what semantic analysis accepts. */
  predicate WellFormed(st: Stmt)
    decreases st
  {
    match st
    case AssignStmt(target, Update(op), _) =>
      op != LAnd && op != LOr && (target.ArrTarget? ==> CallFree(target.index))
    case IncDec(target, _) => target.ArrTarget? ==> CallFree(target.index)
    case ExprStmt(e) => e.Call?
    case If(_, thn, els) => WellFormedBlock(thn) && WellFormedBlock(els)
    case While(_, body) => WellFormedBlock(body)
    case _ => true
  }

  predicate WellFormedBlock(b: Block)
    decreases b
  {
    b != [] ==> WellFormed(b[0]) && WellFormedBlock(b[1..])
  }

  /** The machine's table of constants holds what the builder collected. */
  ghost predicate ConstsAgree(m: Machine, consts: seq<Constant>) {
    forall i :: 0 <= i < |consts| ==> m.consts(consts[i].cid) == consts[i].text
  }

  // ----- Code in place -----

  ghost predicate Placed(prog: Code, base: nat, code: Code) {
    base + |code| <= |prog| && forall i :: 0 <= i < |code| ==> prog[base + i] == code[i]
  }

  lemma PlacedPart(prog: Code, base: nat, a: Code, b: Code, c: Code)
    requires Placed(prog, base, a + b + c)
    ensures Placed(prog, base + |a|, b)
  {
    forall i | 0 <= i < |b| ensures prog[base + |a| + i] == b[i] {
      assert (a + b + c)[|a| + i] == b[i];
    }
  }

  /** After `n` steps the code at `base` has done what the structured result says. */
  ghost predicate Realises(m: Machine, prog: Code, base: nat, len: nat, r: Result, fuel: nat, s: Store, t: Trace,
                           n: nat)
  {
    var c := Run(m, prog, Running(base, s, t), n);
    match r
    case Normal(s', t') => c == Running(base + len, s', t')
    case Stopped(o, t') => c == Halted(o, t')
    case Timeout(t') => c.Running? && c.t == t' && n >= fuel
  }

  lemma OneStep(m: Machine, prog: Code, c: Config)
    ensures Run(m, prog, c, 1) == Step(m, prog, c)
  {
    assert Run(m, prog, Step(m, prog, c), 0) == Step(m, prog, c);
  }

  lemma TwoSteps(m: Machine, prog: Code, c: Config)
    ensures Run(m, prog, c, 2) == Step(m, prog, Step(m, prog, c))
  {
    OneStep(m, prog, Step(m, prog, c));
  }

  // ----- Simple statements -----

  lemma TargetSound(m: Machine, target: Target, v: int, s: Store, t: Trace)
    requires Lawful(m.ops) && LowerTarget(m.ops, target).Some?
    ensures StoreTo(m, LowerTarget(m.ops, target).value, v, s, t) == StoreTo(m, target, v, s, t)
  {
    if target.ArrTarget? {
      LowerExprSound(m, target.index, s, t);
    }
  }

  lemma StoreInstrSound(m: Machine, target: Target, e: Expr, s: Store, t: Trace)
    requires Lawful(m.ops) && LowerTarget(m.ops, target).Some? && LowerExpr(m.ops, e).Some?
    ensures var (v, t1) := Eval(m, e, s, t);
            Exec(m, StoreInstr(LowerTarget(m.ops, target).value, LowerExpr(m.ops, e).value), s, t)
            == StoreTo(m, target, v, s, t1)
  {
    LowerExprSound(m, e, s, t);
    var (v, t1) := Eval(m, e, s, t);
    TargetSound(m, target, v, s, t1);
    StoreInstrStores(m, LowerTarget(m.ops, target).value, LowerExpr(m.ops, e).value, s, t);
  }

  /** A store instruction evaluates, then stores. */
  lemma StoreInstrStores(m: Machine, target: Target, e: Expr, s: Store, t: Trace)
    ensures Exec(m, StoreInstr(target, e), s, t) == StoreTo(m, target, Eval(m, e, s, t).0, s, Eval(m, e, s, t).1)
  {
  }

  /** The instruction has the effect that the statement's result says. */
  ghost predicate SameEffect(eff: Effect, r: Result) {
    match eff
    case Next(s, t) => r == Normal(s, t)
    case Halt(o, t) => r == Stopped(o, t)
    case Jump(_, _, _) => false
  }

  /** The code emitted for `target op= e`. */
  function UpdateCode(ops: Ops, target: Target, op: BinOp, e: Expr): Instr
    requires LowerTarget(ops, target).Some? && LowerExpr(ops, e).Some?
  {
    UpdateInstr(LowerTarget(ops, target).value, op, LowerExpr(ops, e).value)
  }

  /** The emitted code evaluates the index, the operand and the index again. */
  lemma UpdateRuns(m: Machine, a: string, i: Expr, op: BinOp, e: Expr, s: Store, t: Trace)
    requires Lawful(m.ops) && LowerExpr(m.ops, i).Some? && LowerExpr(m.ops, e).Some? && op != LAnd && op != LOr
    ensures var (iv, t1) := Eval(m, i, s, t);
            var (v, t2) := Eval(m, e, s, t1);
            var (jv, t3) := Eval(m, i, s, t2);
            Exec(m, UpdateCode(m.ops, ArrTarget(a, i), op, e), s, t)
            == Next(WriteCell(s, a, jv, m.ops.bin(op, ReadCell(s, a, iv), v)), t3)
  {
    var t1 := Eval(m, i, s, t).1;
    LowerExprSound(m, i, s, t);
    LowerExprSound(m, e, s, t1);
    LowerExprSound(m, i, s, Eval(m, e, s, t1).1);
    var i' := LowerExpr(m.ops, i).value;
    assert Eval(m, Arr(a, i'), s, t) == (ReadCell(s, a, Eval(m, i, s, t).0), t1);
  }

  /** With an index that calls, a compound assignment calls twice in the emitted code. */
  lemma UpdateCallsTwice(m: Machine, a: string, i: Expr, op: BinOp, e: Expr, s: Store, t: Trace)
    requires Lawful(m.ops) && LowerExpr(m.ops, i).Some? && LowerExpr(m.ops, e).Some? && op != LAnd && op != LOr
    requires !Silent(m, i, s, t)
    ensures UpdatePlace(m, ArrTarget(a, i), op, e, s, t).t < Exec(m, UpdateCode(m.ops, ArrTarget(a, i), op, e), s, t).t
  {
    UpdateRuns(m, a, i, op, e, s, t);
    var t2 := Eval(m, e, s, Eval(m, i, s, t).1).1;
    TraceGrows(m, i, s, t2);
    if Silent(m, i, s, t2) {
      SilentValue(m, i, s, t2, t);
    }
  }

  /** In any frame, a compound assignment keeps its meaning if and only if finding its place makes no call. */
  lemma UpdateExactAt(m: Machine, target: Target, op: BinOp, e: Expr, s: Store, t: Trace)
    requires Lawful(m.ops) && LowerTarget(m.ops, target).Some? && LowerExpr(m.ops, e).Some?
    requires op != LAnd && op != LOr
    ensures SameEffect(Exec(m, UpdateCode(m.ops, target, op, e), s, t), UpdatePlace(m, target, op, e, s, t)) <==>
            (target.ArrTarget? ==> Silent(m, target.index, s, t))
  {
    match target
    case VarTarget(x) =>
      LowerExprSound(m, e, s, t);
      assert Eval(m, Var(x), s, t) == (Read(s, x), t);
    case ArrTarget(a, i) =>
      if Silent(m, i, s, t) {
        UpdateRuns(m, a, i, op, e, s, t);
        SilentValue(m, i, s, t, Eval(m, e, s, t).1);
      } else {
        UpdateCallsTwice(m, a, i, op, e, s, t);
      }
  }

  /** For an index that calls always or never: the meaning is kept in every frame if and only if no call
      occurs in the index. */
  lemma UpdateExact(m: Machine, a: string, i: Expr, op: BinOp, e: Expr)
    requires Lawful(m.ops) && LowerExpr(m.ops, i).Some? && LowerExpr(m.ops, e).Some? && Unconditional(i)
    requires op != LAnd && op != LOr
    ensures CallFree(i) <==>
            forall s, t :: SameEffect(Exec(m, UpdateCode(m.ops, ArrTarget(a, i), op, e), s, t),
                                      UpdatePlace(m, ArrTarget(a, i), op, e, s, t))
  {
    if CallFree(i) {
      forall s, t ensures SameEffect(Exec(m, UpdateCode(m.ops, ArrTarget(a, i), op, e), s, t),
                                     UpdatePlace(m, ArrTarget(a, i), op, e, s, t))
      {
        CallFreeSilent(m, i, s, t);
        UpdateExactAt(m, ArrTarget(a, i), op, e, s, t);
      }
    } else {
      var s, t := Store(map[], map[]), [];
      TraceGrows(m, i, s, t);
      UpdateExactAt(m, ArrTarget(a, i), op, e, s, t);
    }
  }

  /** The place a statement reads and writes, if it updates one. */
  function UpdatedPlace(st: Stmt): Option<Target> {
    match st
    case AssignStmt(target, Update(op), _) => if op == LAnd || op == LOr then None else Some(target)
    case IncDec(target, _) => Some(target)
    case _ => None
  }

  /** Compound assignment, increment and decrement: the emitted instruction has the statement's effect in a
      frame if and only if finding the place makes no call there. */
  lemma CompoundExact(m: Machine, cx: Context, st: Stmt, labelId: nat, constId: nat, s: Store, t: Trace)
    requires Lawful(m.ops) && cx.ops == m.ops && UpdatedPlace(st).Some?
    requires LowerSimple(cx, st, labelId, constId).Some?
    ensures var code := LowerSimple(cx, st, labelId, constId).value.code;
            var target := UpdatedPlace(st).value;
            && |code| == 1
            && (SameEffect(Exec(m, code[0], s, t), ExecSimple(m, cx.isMain, st, s, t)) <==>
                (target.ArrTarget? ==> Silent(m, target.index, s, t)))
  {
    match st
    case AssignStmt(target, Update(op), e) => UpdateExactAt(m, target, op, e, s, t);
    case IncDec(target, increment) => UpdateExactAt(m, target, Add, Int(if increment then 1 else -1), s, t);
  }

  lemma UpdatingEffect(m: Machine, cx: Context, st: Stmt, labelId: nat, constId: nat, s: Store, t: Trace)
    requires Lawful(m.ops) && cx.ops == m.ops && UpdatedPlace(st).Some? && WellFormed(st)
    requires LowerSimple(cx, st, labelId, constId).Some?
    ensures var code := LowerSimple(cx, st, labelId, constId).value.code;
            |code| == 1 && SameEffect(Exec(m, code[0], s, t), ExecSimple(m, cx.isMain, st, s, t))
  {
    CompoundExact(m, cx, st, labelId, constId, s, t);
    var target := UpdatedPlace(st).value;
    if target.ArrTarget? {
      CallFreeSilent(m, target.index, s, t);
    }
  }

  lemma StoringEffect(m: Machine, cx: Context, st: Stmt, labelId: nat, constId: nat, s: Store, t: Trace)
    requires Lawful(m.ops) && cx.ops == m.ops && (st.VarDecl? || st.AssignStmt? || st.IncDec?) && WellFormed(st)
    requires LowerSimple(cx, st, labelId, constId).Some?
    ensures var code := LowerSimple(cx, st, labelId, constId).value.code;
            |code| == 1 && SameEffect(Exec(m, code[0], s, t), ExecSimple(m, cx.isMain, st, s, t))
  {
    match st
    case VarDecl(x, size, init) =>
      if size.None? && init.Some? {
        StoreInstrSound(m, VarTarget(x), init.value, s, t);
      }
    case AssignStmt(target, Set, e) => StoreInstrSound(m, target, e, s, t);
    case AssignStmt(_, Update(_), _) => UpdatingEffect(m, cx, st, labelId, constId, s, t);
    case IncDec(_, _) => UpdatingEffect(m, cx, st, labelId, constId, s, t);
  }

  /** A simple statement is at most one instruction with the same effect. */
  lemma SimpleEffect(m: Machine, cx: Context, st: Stmt, labelId: nat, constId: nat, s: Store, t: Trace)
    requires Lawful(m.ops) && cx.ops == m.ops && IsSimple(st) && WellFormed(st)
    requires LowerSimple(cx, st, labelId, constId).Some?
    requires ConstsAgree(m, LowerSimple(cx, st, labelId, constId).value.consts)
    ensures var code := LowerSimple(cx, st, labelId, constId).value.code;
            var r := ExecSimple(m, cx.isMain, st, s, t);
            && |code| <= 1
            && (code == [] ==> r == Normal(s, t))
            && (|code| == 1 ==> SameEffect(Exec(m, code[0], s, t), r))
  {
    if st.VarDecl? || st.AssignStmt? || st.IncDec? {
      StoringEffect(m, cx, st, labelId, constId, s, t);
    } else if st.PrintStr? {
      var x := LowerSimple(cx, st, labelId, constId).value;
      assert m.consts(x.consts[0].cid) == x.consts[0].text;
    } else if !st.Empty? {
      LowerExprSound(m, st.expr, s, t);
    }
  }

  lemma SimpleSim(m: Machine, cx: Context, st: Stmt, labelId: nat, constId: nat, prog: Code, base: nat,
                  fuel: nat, s: Store, t: Trace) returns (n: nat)
    requires Lawful(m.ops) && cx.ops == m.ops && IsSimple(st) && WellFormed(st)
    requires LowerStmt(cx, st, labelId, constId).Some?
    requires var x := LowerStmt(cx, st, labelId, constId).value; Placed(prog, base, x.code) && ConstsAgree(m, x.consts)
    ensures Realises(m, prog, base, |LowerStmt(cx, st, labelId, constId).value.code|,
                     ExecStmt(m, cx.isMain, st, fuel, s, t), fuel, s, t, n)
  {
    SimpleEffect(m, cx, st, labelId, constId, s, t);
    var code := LowerStmt(cx, st, labelId, constId).value.code;
    n := |code|;
    if n == 1 {
      assert prog[base + 0] == code[0];
      OneStep(m, prog, Running(base, s, t));
    }
  }

  // ----- Branches and loops -----

  /** From the head of an if, control reaches the chosen branch. */
  lemma EnterBranch(m: Machine, prog: Code, base: nat, c: Expr, l1: string, l2: string, l3: string, thn: Code,
                    els: Code, s: Store, t: Trace) returns (k: nat)
    requires UniqueLabels(prog) && Placed(prog, base, IfCode(c, l1, l2, l3, thn, els))
    ensures var (v, t1) := Eval(m, c, s, t);
            Run(m, prog, Running(base, s, t), k)
            == Running(if v != 0 then base + 3 else base + 5 + |thn|, s, t1)
  {
    var code := IfCode(c, l1, l2, l3, thn, els);
    assert prog[base + 0] == code[0] && prog[base + 1] == code[1] && prog[base + 2] == code[2];
    assert code[|thn| + 4] == Label(l2) && prog[base + (|thn| + 4)] == Label(l2);
    LabelFound(prog, base + 2, l1);
    LabelFound(prog, base + 4 + |thn|, l2);
    var (v, t1) := Eval(m, c, s, t);
    var c0 := Running(base, s, t);
    var c1 := Step(m, prog, c0);
    TwoSteps(m, prog, c0);
    k := 2;
    if v == 0 {
      assert c1 == Running(base + 1, s, t1);
      TwoSteps(m, prog, c1);
      RunSplit(m, prog, c0, 1, 2);
      OneStep(m, prog, c0);
      k := 3;
    } else {
      assert c1 == Running(base + 2, s, t1);
    }
  }

  /** From the end of either branch, control reaches the end of the if. */
  lemma LeaveBranch(m: Machine, prog: Code, base: nat, c: Expr, l1: string, l2: string, l3: string, thn: Code,
                    els: Code, taken: bool, s: Store, t: Trace) returns (k: nat)
    requires UniqueLabels(prog) && Placed(prog, base, IfCode(c, l1, l2, l3, thn, els))
    ensures Run(m, prog, Running(if taken then base + 3 + |thn| else base + 5 + |thn| + |els|, s, t), k)
            == Running(base + |thn| + |els| + 6, s, t)
  {
    var code := IfCode(c, l1, l2, l3, thn, els);
    assert code[|thn| + 3] == Goto(l3) && prog[base + (|thn| + 3)] == Goto(l3);
    assert code[|thn| + |els| + 5] == Label(l3) && prog[base + (|thn| + |els| + 5)] == Label(l3);
    LabelFound(prog, base + |thn| + |els| + 5, l3);
    if taken {
      TwoSteps(m, prog, Running(base + 3 + |thn|, s, t));
      k := 2;
    } else {
      OneStep(m, prog, Running(base + 5 + |thn| + |els|, s, t));
      k := 1;
    }
  }

  /** Joins the steps into a branch, through it and, if it ends normally, out of it. */
  lemma IfSim(m: Machine, prog: Code, base: nat, c: Expr, l1: string, l2: string, l3: string, thn: Code, els: Code,
              r: Result, fuel: nat, s: Store, t: Trace, n: nat) returns (total: nat)
    requires UniqueLabels(prog) && Placed(prog, base, IfCode(c, l1, l2, l3, thn, els))
    requires var (v, t1) := Eval(m, c, s, t);
             if v != 0 then Realises(m, prog, base + 3, |thn|, r, fuel, s, t1, n)
             else Realises(m, prog, base + 5 + |thn|, |els|, r, fuel, s, t1, n)
    ensures Realises(m, prog, base, |IfCode(c, l1, l2, l3, thn, els)|, r, fuel, s, t, total)
  {
    var (v, t1) := Eval(m, c, s, t);
    var k := EnterBranch(m, prog, base, c, l1, l2, l3, thn, els, s, t);
    RunSplit(m, prog, Running(base, s, t), k, n);
    total := k + n;
    if r.Normal? {
      var j := LeaveBranch(m, prog, base, c, l1, l2, l3, thn, els, v != 0, r.s, r.t);
      RunSplit(m, prog, Running(base, s, t), total, j);
      total := total + j;
    }
  }

  /** From the head of a loop, control reaches its body or its end. */
  lemma EnterLoop(m: Machine, prog: Code, base: nat, c: Expr, l1: string, l2: string, l3: string, body: Code,
                  s: Store, t: Trace) returns (k: nat)
    requires UniqueLabels(prog) && Placed(prog, base, WhileCode(c, l1, l2, l3, body))
    ensures k >= 1
    ensures var (v, t1) := Eval(m, c, s, t);
            Run(m, prog, Running(base, s, t), k)
            == Running(if v != 0 then base + 4 else base + |body| + 6, s, t1)
  {
    LoopPlaced(prog, base, c, l1, l2, l3, body);
    var (v, t1) := Eval(m, c, s, t);
    var c0, end := Running(base, s, t), base + 5 + |body|;
    AtLabel(m, prog, base, s, t);
    AtIf(m, prog, base + 1, c, l2, base + 3, s, t);
    Onward(m, prog, c0, 1, Running(base + 1, s, t), 1, Running(if v != 0 then base + 3 else base + 2, s, t1));
    if v != 0 {
      AtLabel(m, prog, base + 3, s, t1);
      Onward(m, prog, c0, 2, Running(base + 3, s, t1), 1, Running(base + 4, s, t1));
      k := 3;
    } else {
      AtGoto(m, prog, base + 2, l3, end, s, t1);
      Onward(m, prog, c0, 2, Running(base + 2, s, t1), 1, Running(end, s, t1));
      AtLabel(m, prog, end, s, t1);
      Onward(m, prog, c0, 3, Running(end, s, t1), 1, Running(end + 1, s, t1));
      k := 4;
    }
  }

  lemma AtLabel(m: Machine, prog: Code, pc: nat, s: Store, t: Trace)
    requires pc < |prog| && prog[pc].Label?
    ensures Run(m, prog, Running(pc, s, t), 1) == Running(pc + 1, s, t)
  {
    OneStep(m, prog, Running(pc, s, t));
  }

  lemma AtGoto(m: Machine, prog: Code, pc: nat, l: string, k: nat, s: Store, t: Trace)
    requires pc < |prog| && prog[pc] == Goto(l) && LabelIndex(prog, l) == Some(k)
    ensures Run(m, prog, Running(pc, s, t), 1) == Running(k, s, t)
  {
    OneStep(m, prog, Running(pc, s, t));
  }

  lemma AtIf(m: Machine, prog: Code, pc: nat, c: Expr, l: string, k: nat, s: Store, t: Trace)
    requires pc < |prog| && prog[pc] == IfGoto(c, l) && LabelIndex(prog, l) == Some(k)
    ensures var (v, t1) := Eval(m, c, s, t);
            Run(m, prog, Running(pc, s, t), 1) == Running(if v != 0 then k else pc + 1, s, t1)
  {
    OneStep(m, prog, Running(pc, s, t));
  }

  /** The instructions of a placed loop, and where its labels lead. */
  lemma LoopPlaced(prog: Code, base: nat, c: Expr, l1: string, l2: string, l3: string, body: Code)
    requires UniqueLabels(prog) && Placed(prog, base, WhileCode(c, l1, l2, l3, body))
    ensures base + 5 + |body| < |prog| && prog[base] == Label(l1) && prog[base + 1] == IfGoto(c, l2)
    ensures prog[base + 2] == Goto(l3) && prog[base + 3] == Label(l2) && prog[base + 5 + |body|] == Label(l3)
    ensures LabelIndex(prog, l2) == Some(base + 3) && LabelIndex(prog, l3) == Some(base + 5 + |body|)
  {
    var code := WhileCode(c, l1, l2, l3, body);
    WhileAt(c, l1, l2, l3, body);
    assert prog[base + 0] == code[0] && prog[base + 1] == code[1];
    assert prog[base + 2] == code[2] && prog[base + 3] == code[3];
    assert prog[base + (|body| + 5)] == code[|body| + 5];
    LabelFound(prog, base + 3, l2);
    LabelFound(prog, base + 5 + |body|, l3);
  }

  lemma WhileAt(c: Expr, l1: string, l2: string, l3: string, body: Code)
    ensures var code := WhileCode(c, l1, l2, l3, body);
            && |code| == |body| + 6 && code[0] == Label(l1) && code[1] == IfGoto(c, l2) && code[2] == Goto(l3)
            && code[3] == Label(l2) && code[|body| + 5] == Label(l3)
  {
  }

  /** From the end of the body, control returns to the head of the loop. */
  lemma LoopBack(m: Machine, prog: Code, base: nat, c: Expr, l1: string, l2: string, l3: string, body: Code, s: Store,
                 t: Trace)
    requires UniqueLabels(prog) && Placed(prog, base, WhileCode(c, l1, l2, l3, body))
    ensures Run(m, prog, Running(base + 4 + |body|, s, t), 1) == Running(base, s, t)
  {
    var code := WhileCode(c, l1, l2, l3, body);
    assert prog[base + 0] == code[0];
    assert code[|body| + 4] == Goto(l1) && prog[base + (|body| + 4)] == Goto(l1);
    LabelFound(prog, base, l1);
    OneStep(m, prog, Running(base + 4 + |body|, s, t));
  }

  lemma {:induction false} StmtSim(m: Machine, cx: Context, st: Stmt, labelId: nat, constId: nat, prog: Code, base: nat,
                                   fuel: nat, s: Store, t: Trace) returns (n: nat)
    requires Lawful(m.ops) && cx.ops == m.ops && WellFormed(st) && UniqueLabels(prog)
    requires LowerStmt(cx, st, labelId, constId).Some?
    requires var x := LowerStmt(cx, st, labelId, constId).value; Placed(prog, base, x.code) && ConstsAgree(m, x.consts)
    ensures Realises(m, prog, base, |LowerStmt(cx, st, labelId, constId).value.code|,
                     ExecStmt(m, cx.isMain, st, fuel, s, t), fuel, s, t, n)
    decreases fuel, st
  {
    if IsSimple(st) {
      n := SimpleSim(m, cx, st, labelId, constId, prog, base, fuel, s, t);
    } else if st.If? {
      n := BranchSim(m, cx, st, labelId, constId, prog, base, fuel, s, t);
    } else {
      n := LoopSim(m, cx, st, labelId, constId, prog, base, fuel, s, t);
    }
  }

  lemma {:induction false} BranchSim(m: Machine, cx: Context, st: Stmt, labelId: nat, constId: nat, prog: Code,
                                     base: nat, fuel: nat, s: Store, t: Trace) returns (n: nat)
    requires Lawful(m.ops) && cx.ops == m.ops && WellFormed(st) && UniqueLabels(prog) && st.If?
    requires LowerIf(cx, st, labelId, constId).Some?
    requires var x := LowerIf(cx, st, labelId, constId).value; Placed(prog, base, x.code) && ConstsAgree(m, x.consts)
    ensures Realises(m, prog, base, |LowerIf(cx, st, labelId, constId).value.code|,
                     ExecStmt(m, cx.isMain, st, fuel, s, t), fuel, s, t, n)
    decreases fuel, st, 1
  {
    var c := LowerExpr(cx.ops, st.cond).value;
    LowerExprSound(m, st.cond, s, t);
    var (v, t1) := Eval(m, c, s, t);
    if c.Int? {
      n := BlockSim(m, cx, if v != 0 then st.thn else st.els, labelId, constId, prog, base, fuel, s, t);
    } else {
      n := ArmsSim(m, cx, st, c, labelId, constId, prog, base, fuel, s, t);
    }
  }

  lemma {:induction false} ArmsSim(m: Machine, cx: Context, st: Stmt, c: Expr, labelId: nat, constId: nat, prog: Code,
                                   base: nat, fuel: nat, s: Store, t: Trace) returns (n: nat)
    requires Lawful(m.ops) && cx.ops == m.ops && WellFormed(st) && UniqueLabels(prog) && st.If?
    requires LowerIf(cx, st, labelId, constId).Some? && LowerExpr(cx.ops, st.cond) == Some(c) && !c.Int?
    requires var x := LowerIf(cx, st, labelId, constId).value; Placed(prog, base, x.code) && ConstsAgree(m, x.consts)
    ensures var (v, t1) := Eval(m, c, s, t);
            Realises(m, prog, base, |LowerIf(cx, st, labelId, constId).value.code|,
                     ExecBlock(m, cx.isMain, if v != 0 then st.thn else st.els, fuel, s, t1), fuel, s, t, n)
    decreases fuel, st, 0
  {
    var (v, t1) := Eval(m, c, s, t);
    var r := ExecBlock(m, cx.isMain, if v != 0 then st.thn else st.els, fuel, s, t1);
    var l1 := LabelName(cx.prefix, "if_then", labelId + 1);
    var l2 := LabelName(cx.prefix, "if_else", labelId + 2);
    var l3 := LabelName(cx.prefix, "if_end", labelId + 3);
    var a := LowerBlock(cx, st.thn, labelId + 3, constId).value;
    var b := LowerBlock(cx, st.els, a.labelId, a.constId).value;
    ConstsSplit(m, a.consts, b.consts);
    IfParts(prog, base, c, l1, l2, l3, a.code, b.code);
    if v != 0 {
      n := BlockSim(m, cx, st.thn, labelId + 3, constId, prog, base + 3, fuel, s, t1);
    } else {
      n := BlockSim(m, cx, st.els, a.labelId, a.constId, prog, base + 5 + |a.code|, fuel, s, t1);
    }
    n := IfSim(m, prog, base, c, l1, l2, l3, a.code, b.code, r, fuel, s, t, n);
  }

  /** The branches of a placed if are placed. */
  lemma IfParts(prog: Code, base: nat, c: Expr, l1: string, l2: string, l3: string, thn: Code, els: Code)
    requires Placed(prog, base, IfCode(c, l1, l2, l3, thn, els))
    ensures Placed(prog, base + 3, thn) && Placed(prog, base + 5 + |thn|, els)
  {
    var p, q := [IfGoto(c, l1), Goto(l2), Label(l1)], [Goto(l3), Label(l2)];
    assert IfCode(c, l1, l2, l3, thn, els) == p + thn + (q + els + [Label(l3)]) == (p + thn + q) + els + [Label(l3)];
    PlacedPart(prog, base, p, thn, q + els + [Label(l3)]);
    PlacedPart(prog, base, p + thn + q, els, [Label(l3)]);
  }

  /** The body of a placed loop is placed. */
  lemma WhileParts(prog: Code, base: nat, c: Expr, l1: string, l2: string, l3: string, body: Code)
    requires Placed(prog, base, WhileCode(c, l1, l2, l3, body))
    ensures Placed(prog, base + 4, body)
  {
    PlacedPart(prog, base, [Label(l1), IfGoto(c, l2), Goto(l3), Label(l2)], body, [Goto(l1), Label(l3)]);
  }

  lemma ConstsSplit(m: Machine, a: seq<Constant>, b: seq<Constant>)
    requires ConstsAgree(m, a + b)
    ensures ConstsAgree(m, a) && ConstsAgree(m, b)
  {
    forall i | 0 <= i < |a| ensures m.consts(a[i].cid) == a[i].text {
      assert (a + b)[i] == a[i];
    }
    forall i | 0 <= i < |b| ensures m.consts(b[i].cid) == b[i].text {
      assert (a + b)[|a| + i] == b[i];
    }
  }

  /** Joins the steps into the body, through it and, if it ends normally, back through the rest of the loop. */
  lemma RoundSim(m: Machine, prog: Code, base: nat, c: Expr, l1: string, l2: string, l3: string, body: Code,
                 rBody: Result, rest: Result, fuel: nat, s: Store, t: Trace, k: nat, j: nat) returns (total: nat)
    requires UniqueLabels(prog) && Placed(prog, base, WhileCode(c, l1, l2, l3, body)) && fuel > 0
    requires Eval(m, c, s, t).0 != 0
    requires Realises(m, prog, base + 4, |body|, rBody, fuel, s, Eval(m, c, s, t).1, k)
    requires rBody.Normal? ==> Realises(m, prog, base, |body| + 6, rest, fuel - 1, rBody.s, rBody.t, j)
    ensures Realises(m, prog, base, |body| + 6, if rBody.Normal? then rest else rBody, fuel, s, t, total)
  {
    total := EnterLoop(m, prog, base, c, l1, l2, l3, body, s, t);
    var inside := Running(base + 4, s, Eval(m, c, s, t).1);
    if rBody.Normal? {
      LoopBack(m, prog, base, c, l1, l2, l3, body, rBody.s, rBody.t);
      Onward(m, prog, inside, k, Running(base + 4 + |body|, rBody.s, rBody.t), 1, Running(base, rBody.s, rBody.t));
      RunSplit(m, prog, inside, k + 1, j);
      RunSplit(m, prog, Running(base, s, t), total, k + 1 + j);
      total := total + (k + 1 + j);
    } else {
      RunSplit(m, prog, Running(base, s, t), total, k);
      total := total + k;
    }
  }

  lemma Onward(m: Machine, prog: Code, c: Config, i: nat, c': Config, j: nat, c'': Config)
    requires Run(m, prog, c, i) == c' && Run(m, prog, c', j) == c''
    ensures Run(m, prog, c, i + j) == c''
  {
    RunSplit(m, prog, c, i, j);
  }

  lemma {:induction false} LoopSim(m: Machine, cx: Context, st: Stmt, labelId: nat, constId: nat, prog: Code, base: nat,
                                   fuel: nat, s: Store, t: Trace) returns (n: nat)
    requires Lawful(m.ops) && cx.ops == m.ops && WellFormed(st) && UniqueLabels(prog) && st.While?
    requires LowerWhile(cx, st, labelId, constId).Some?
    requires var x := LowerWhile(cx, st, labelId, constId).value; Placed(prog, base, x.code) && ConstsAgree(m, x.consts)
    ensures Realises(m, prog, base, |LowerWhile(cx, st, labelId, constId).value.code|,
                     ExecStmt(m, cx.isMain, st, fuel, s, t), fuel, s, t, n)
    decreases fuel, st, 2
  {
    n := 0;
    var c := LowerExpr(cx.ops, st.cond).value;
    LowerExprSound(m, st.cond, s, t);
    if c != Int(0) {
      n := RoundsSim(m, cx, st, labelId, constId, prog, base,
                     LabelName(cx.prefix, "while_cond", labelId + 1), LabelName(cx.prefix, "while_body", labelId + 2),
                     LabelName(cx.prefix, "while_end", labelId + 3), fuel, s, t);
    }
  }

  lemma {:induction false} RoundsSim(m: Machine, cx: Context, st: Stmt, labelId: nat, constId: nat, prog: Code,
                                     base: nat,
                                     l1: string, l2: string, l3: string, fuel: nat, s: Store, t: Trace) returns (n: nat)
    requires Lawful(m.ops) && cx.ops == m.ops && UniqueLabels(prog) && st.While? && WellFormedBlock(st.body)
    requires LowerExpr(cx.ops, st.cond).Some? && LowerBlock(cx, st.body, labelId + 3, constId).Some?
    requires var a := LowerBlock(cx, st.body, labelId + 3, constId).value;
             && Placed(prog, base, WhileCode(LowerExpr(cx.ops, st.cond).value, l1, l2, l3, a.code))
             && ConstsAgree(m, a.consts)
    ensures Realises(m, prog, base, |LowerBlock(cx, st.body, labelId + 3, constId).value.code| + 6,
                     ExecStmt(m, cx.isMain, st, fuel, s, t), fuel, s, t, n)
    decreases fuel, st, 1
  {
    var c := LowerExpr(cx.ops, st.cond).value;
    LowerExprSound(m, st.cond, s, t);
    var code := LowerBlock(cx, st.body, labelId + 3, constId).value.code;
    n := 0;
    if fuel > 0 && Eval(m, c, s, t).0 == 0 {
      n := EnterLoop(m, prog, base, c, l1, l2, l3, code, s, t);
    } else if fuel > 0 {
      n := AnotherRound(m, cx, st, c, labelId, constId, prog, base, l1, l2, l3, fuel, s, t);
    }
  }

  lemma {:induction false} AnotherRound(m: Machine, cx: Context, st: Stmt, c: Expr, labelId: nat, constId: nat,
                                        prog: Code,
                                        base: nat, l1: string, l2: string, l3: string, fuel: nat, s: Store, t: Trace)
    returns (n: nat)
    requires Lawful(m.ops) && cx.ops == m.ops && UniqueLabels(prog) && st.While? && WellFormedBlock(st.body) && fuel > 0
    requires LowerExpr(cx.ops, st.cond) == Some(c) && LowerBlock(cx, st.body, labelId + 3, constId).Some?
    requires var a := LowerBlock(cx, st.body, labelId + 3, constId).value;
             Placed(prog, base, WhileCode(c, l1, l2, l3, a.code)) && ConstsAgree(m, a.consts)
    requires Eval(m, c, s, t).0 != 0
    ensures var r := ExecBlock(m, cx.isMain, st.body, fuel, s, Eval(m, c, s, t).1);
            Realises(m, prog, base, |LowerBlock(cx, st.body, labelId + 3, constId).value.code| + 6,
                     if r.Normal? then ExecStmt(m, cx.isMain, st, fuel - 1, r.s, r.t) else r, fuel, s, t, n)
    decreases fuel, st, 0
  {
    var code := LowerBlock(cx, st.body, labelId + 3, constId).value.code;
    var t1 := Eval(m, c, s, t).1;
    WhileParts(prog, base, c, l1, l2, l3, code);
    var k := BlockSim(m, cx, st.body, labelId + 3, constId, prog, base + 4, fuel, s, t1);
    var r := ExecBlock(m, cx.isMain, st.body, fuel, s, t1);
    var j := 0;
    if r.Normal? {
      j := RoundsSim(m, cx, st, labelId, constId, prog, base, l1, l2, l3, fuel - 1, r.s, r.t);
    }
    var rest := if r.Normal? then ExecStmt(m, cx.isMain, st, fuel - 1, r.s, r.t) else r;
    n := RoundSim(m, prog, base, c, l1, l2, l3, code, r, rest, fuel, s, t, k, j);
  }

  lemma {:induction false} BlockSim(m: Machine, cx: Context, b: Block, labelId: nat, constId: nat, prog: Code,
                                    base: nat, fuel: nat, s: Store, t: Trace) returns (n: nat)
    requires Lawful(m.ops) && cx.ops == m.ops && WellFormedBlock(b) && UniqueLabels(prog)
    requires LowerBlock(cx, b, labelId, constId).Some?
    requires var x := LowerBlock(cx, b, labelId, constId).value; Placed(prog, base, x.code) && ConstsAgree(m, x.consts)
    ensures Realises(m, prog, base, |LowerBlock(cx, b, labelId, constId).value.code|,
                     ExecBlock(m, cx.isMain, b, fuel, s, t), fuel, s, t, n)
    decreases fuel, b
  {
    n := 0;
    if b != [] {
      if b[0].Return? {
        n := StmtSim(m, cx, b[0], labelId, constId, prog, base, fuel, s, t);
      } else {
        n := ConsSim(m, cx, b, labelId, constId, prog, base, fuel, s, t);
      }
    }
  }

  lemma {:induction false} ConsSim(m: Machine, cx: Context, b: Block, labelId: nat, constId: nat, prog: Code,
                                   base: nat, fuel: nat, s: Store, t: Trace) returns (n: nat)
    requires Lawful(m.ops) && cx.ops == m.ops && WellFormedBlock(b) && UniqueLabels(prog)
    requires b != [] && !b[0].Return? && LowerBlock(cx, b, labelId, constId).Some?
    requires var x := LowerBlock(cx, b, labelId, constId).value; Placed(prog, base, x.code) && ConstsAgree(m, x.consts)
    ensures Realises(m, prog, base, |LowerBlock(cx, b, labelId, constId).value.code|,
                     ExecBlock(m, cx.isMain, b, fuel, s, t), fuel, s, t, n)
    decreases fuel, b, 0
  {
    var x := LowerStmt(cx, b[0], labelId, constId).value;
    var y := LowerBlock(cx, b[1..], x.labelId, x.constId).value;
    PlacedBoth(prog, base, x.code, y.code);
    ConstsSplit(m, x.consts, y.consts);
    n := StmtSim(m, cx, b[0], labelId, constId, prog, base, fuel, s, t);
    var r := ExecStmt(m, cx.isMain, b[0], fuel, s, t);
    if r.Normal? {
      var k := BlockSim(m, cx, b[1..], x.labelId, x.constId, prog, base + |x.code|, fuel, r.s, r.t);
      SeqSim(m, prog, base, |x.code|, |y.code|, r, ExecBlock(m, cx.isMain, b[1..], fuel, r.s, r.t), fuel, s, t, n, k);
      n := n + k;
    }
  }

  lemma PlacedBoth(prog: Code, base: nat, a: Code, b: Code)
    requires Placed(prog, base, a + b)
    ensures Placed(prog, base, a) && Placed(prog, base + |a|, b)
  {
    assert [] + a + b == a + b == a + b + [];
    PlacedPart(prog, base, [], a, b);
    PlacedPart(prog, base, a, b, []);
  }

  /** One piece of code after another. */
  lemma SeqSim(m: Machine, prog: Code, base: nat, len: nat, len': nat, r: Result, r': Result, fuel: nat, s: Store,
               t: Trace, n: nat, k: nat)
    requires r.Normal? && Realises(m, prog, base, len, r, fuel, s, t, n)
    requires Realises(m, prog, base + len, len', r', fuel, r.s, r.t, k)
    ensures Realises(m, prog, base, len + len', r', fuel, s, t, n + k)
  {
    RunSplit(m, prog, Running(base, s, t), n, k);
  }

  // ----- Whole functions -----

  /** A return stands where no constant condition rules it out, so code is emitted for it. */
  predicate EmitsReturn(ops: Ops, st: Stmt)
    decreases st
  {
    match st
    case Return(_) => true
    case If(c, thn, els) =>
      (match LowerExpr(ops, c) {
         case Some(Int(v)) => EmitsReturnIn(ops, if v != 0 then thn else els)
         case _ => EmitsReturnIn(ops, thn) || EmitsReturnIn(ops, els)
       })
    case While(c, body) => LowerExpr(ops, c) != Some(Int(0)) && EmitsReturnIn(ops, body)
    case _ => false
  }

  predicate EmitsReturnIn(ops: Ops, b: Block)
    decreases b
  {
    b != [] && (EmitsReturn(ops, b[0]) || EmitsReturnIn(ops, b[1..]))
  }

  lemma {:induction false} StmtReturns(cx: Context, st: Stmt, labelId: nat, constId: nat)
    requires LowerStmt(cx, st, labelId, constId).Some?
    ensures LowerStmt(cx, st, labelId, constId).value.hasReturn <==> EmitsReturn(cx.ops, st)
    decreases st
  {
    if !IsSimple(st) {
      var c := LowerExpr(cx.ops, st.cond).value;
      if st.If? && c.Int? {
        BlockReturns(cx, if c.value != 0 then st.thn else st.els, labelId, constId);
      } else if st.If? {
        var a := LowerBlock(cx, st.thn, labelId + 3, constId).value;
        BlockReturns(cx, st.thn, labelId + 3, constId);
        BlockReturns(cx, st.els, a.labelId, a.constId);
      } else if c != Int(0) {
        BlockReturns(cx, st.body, labelId + 3, constId);
      }
    }
  }

  /** The builder has emitted a return exactly when the source has one that no constant condition rules out. */
  lemma {:induction false} BlockReturns(cx: Context, b: Block, labelId: nat, constId: nat)
    requires LowerBlock(cx, b, labelId, constId).Some?
    ensures LowerBlock(cx, b, labelId, constId).value.hasReturn <==> EmitsReturnIn(cx.ops, b)
    decreases b
  {
    if b != [] {
      StmtReturns(cx, b[0], labelId, constId);
      if !b[0].Return? {
        var x := LowerStmt(cx, b[0], labelId, constId).value;
        BlockReturns(cx, b[1..], x.labelId, x.constId);
      }
    }
  }

  /** How a function body that runs to its end ends: it returns zero, unless some return was emitted, and then
      it falls off the end. */
  function EndOutcome(cx: Context, b: Block): Outcome {
    if EmitsReturnIn(cx.ops, b) then FellOff else ReturnOutcome(cx.isMain, 0)
  }

  /** What an observer sees of the structured function once `fuel` loop rounds are allowed. */
  function ObserveFunction(m: Machine, cx: Context, b: Block, fuel: nat, s: Store): Observation {
    match ExecBlock(m, cx.isMain, b, fuel, s, [])
    case Normal(_, t) => Observation(t, Some(EndOutcome(cx, b)))
    case Stopped(o, t) => Observation(t, Some(o))
    case Timeout(t) => Observation(t, None)
  }

  /** Everything the structured function shows, its lowered code shows. */
  lemma LoweringForward(m: Machine, cx: Context, b: Block, constId: nat, fuel: nat, s: Store) returns (n: nat)
    requires Lawful(m.ops) && cx.ops == m.ops && WellFormedBlock(b)
    requires LowerFunction(cx, b, constId).Some? && ConstsAgree(m, LowerFunction(cx, b, constId).value.consts)
    ensures ObserveRun(m, LowerFunction(cx, b, constId).value.code, s, n) == ObserveFunction(m, cx, b, fuel, s)
    ensures ExecBlock(m, cx.isMain, b, fuel, s, []).Timeout? ==> n >= fuel
  {
    var prog := LowerFunction(cx, b, constId).value.code;
    FunctionLabels(cx, b, constId);
    var x := LowerBlock(cx, b, 0, constId).value;
    n := BlockSim(m, cx, b, 0, constId, prog, 0, fuel, s, []);
    var r := ExecBlock(m, cx.isMain, b, fuel, s, []);
    if r.Normal? {
      var c := Running(|x.code|, r.s, r.t);
      LastStep(m, cx, b, constId, r.s, r.t);
      Onward(m, prog, Running(0, s, []), n, c, 1, Halted(EndOutcome(cx, b), r.t));
      n := n + 1;
    }
  }

  lemma EndStep(m: Machine, isMain: bool, x: Lowered, prog: Code, s: Store, t: Trace)
    requires prog == if x.hasReturn then x.code else x.code + [ReturnInstr(isMain, Int(0))]
    ensures Run(m, prog, Running(|x.code|, s, t), 1)
            == Halted(if x.hasReturn then FellOff else ReturnOutcome(isMain, 0), t)
  {
    OneStep(m, prog, Running(|x.code|, s, t));
  }

  /** From the end of the lowered body, one step ends the function. */
  lemma LastStep(m: Machine, cx: Context, b: Block, constId: nat, s: Store, t: Trace)
    requires LowerFunction(cx, b, constId).Some?
    ensures Run(m, LowerFunction(cx, b, constId).value.code,
                Running(|LowerBlock(cx, b, 0, constId).value.code|, s, t), 1) == Halted(EndOutcome(cx, b), t)
  {
    BlockReturns(cx, b, 0, constId);
    var x := LowerBlock(cx, b, 0, constId).value;
    var prog := LowerFunction(cx, b, constId).value.code;
    assert prog == if x.hasReturn then x.code else x.code + [ReturnInstr(cx.isMain, Int(0))];
    EndStep(m, cx.isMain, x, prog, s, t);
  }

  /** After any number of steps the lowered code has shown only what the structured function shows, in the same
      order; when it halts, the structured function ends with the same events and outcome. */
  lemma LoweringBackward(m: Machine, cx: Context, b: Block, constId: nat, n: nat, s: Store)
    requires Lawful(m.ops) && cx.ops == m.ops && WellFormedBlock(b)
    requires LowerFunction(cx, b, constId).Some? && ConstsAgree(m, LowerFunction(cx, b, constId).value.consts)
    ensures var code := LowerFunction(cx, b, constId).value.code;
            && ObserveRun(m, code, s, n).t <= ObserveFunction(m, cx, b, n + 1, s).t
            && (Run(m, code, Running(0, s, []), n).Halted? ==>
                  ObserveFunction(m, cx, b, n + 1, s) == ObserveRun(m, code, s, n))
  {
    var prog := LowerFunction(cx, b, constId).value.code;
    var k := LoweringForward(m, cx, b, constId, n + 1, s);
    SeenBefore(m, prog, s, n, k);
  }

  /** What is seen after `n` steps, when after `k` steps the run is over or `k` is no less. */
  lemma SeenBefore(m: Machine, prog: Code, s: Store, n: nat, k: nat)
    requires k >= n || ObserveRun(m, prog, s, k).outcome.Some?
    ensures ObserveRun(m, prog, s, n).t <= ObserveRun(m, prog, s, k).t
    ensures Run(m, prog, Running(0, s, []), n).Halted? ==> ObserveRun(m, prog, s, n) == ObserveRun(m, prog, s, k)
  {
    var c0 := Running(0, s, []);
    if k >= n {
      var c := Run(m, prog, c0, n);
      RunSplit(m, prog, c0, n, k - n);
      RunGrows(m, prog, c, k - n);
      if c.Halted? {
        HaltedStays(m, prog, c, k - n);
      }
    } else {
      RunSplit(m, prog, c0, k, n - k);
      HaltedStays(m, prog, Run(m, prog, c0, k), n - k);
    }
  }

  /** A halted run fell off the end if and only if the structured body ran to its end and has a return that no
      constant condition rules out. */
  lemma FallsOffExactly(m: Machine, cx: Context, b: Block, constId: nat, n: nat, s: Store)
    requires Lawful(m.ops) && cx.ops == m.ops && WellFormedBlock(b)
    requires LowerFunction(cx, b, constId).Some? && ConstsAgree(m, LowerFunction(cx, b, constId).value.consts)
    requires Run(m, LowerFunction(cx, b, constId).value.code, Running(0, s, []), n).Halted?
    ensures Run(m, LowerFunction(cx, b, constId).value.code, Running(0, s, []), n).outcome == FellOff <==>
            ExecBlock(m, cx.isMain, b, n + 1, s, []).Normal? && EmitsReturnIn(cx.ops, b)
  {
    LoweringBackward(m, cx, b, constId, n, s);
    BlockStops(m, cx.isMain, b, n + 1, s, []);
  }

  /** The structured program stops only at a return. */
  lemma {:induction false} StmtStops(m: Machine, isMain: bool, st: Stmt, fuel: nat, s: Store, t: Trace)
    ensures var r := ExecStmt(m, isMain, st, fuel, s, t);
            r.Stopped? ==> r.outcome != FellOff
    decreases fuel, st
  {
    match st
    case If(c, thn, els) =>
      var (v, t1) := Eval(m, c, s, t);
      BlockStops(m, isMain, if v != 0 then thn else els, fuel, s, t1);
    case While(c, body) =>
      var (v, t1) := Eval(m, c, s, t);
      if fuel > 0 && v != 0 {
        BlockStops(m, isMain, body, fuel, s, t1);
        var r := ExecBlock(m, isMain, body, fuel, s, t1);
        if r.Normal? {
          StmtStops(m, isMain, st, fuel - 1, r.s, r.t);
        }
      }
    case _ =>
  }

  lemma {:induction false} BlockStops(m: Machine, isMain: bool, b: Block, fuel: nat, s: Store, t: Trace)
    ensures var r := ExecBlock(m, isMain, b, fuel, s, t);
            r.Stopped? ==> r.outcome != FellOff
    decreases fuel, b
  {
    if b != [] {
      StmtStops(m, isMain, b[0], fuel, s, t);
      var r := ExecStmt(m, isMain, b[0], fuel, s, t);
      if r.Normal? {
        BlockStops(m, isMain, b[1..], fuel, r.s, r.t);
      }
    }
  }

  // ----- Events are never taken back -----

  lemma ExecGrows(m: Machine, ins: Instr, s: Store, t: Trace)
    ensures t <= Exec(m, ins, s, t).t
  {
    match ins
    case IfGoto(c, _) => TraceGrows(m, c, s, t);
    case Assign(target, e) =>
      TraceGrows(m, e, s, t);
      StoreGrows(m, target, Eval(m, e, s, t).0, s, Eval(m, e, s, t).1);
    case CallInstr(f, args, result) =>
      TraceGrows(m, Call(f, args), s, t);
      var (v, t1) := Eval(m, Call(f, args), s, t);
      if result.Some? {
        StoreGrows(m, result.value, v, s, t1);
      }
    case WriteExpr(e) => TraceGrows(m, e, s, t);
    case PauseExpr(e) => TraceGrows(m, e, s, t);
    case ExitExpr(e) => TraceGrows(m, e, s, t);
    case ReturnExpr(e) => TraceGrows(m, e, s, t);
    case _ =>
  }

  lemma StoreGrows(m: Machine, target: Target, v: int, s: Store, t: Trace)
    ensures t <= StoreTo(m, target, v, s, t).t
  {
    if target.ArrTarget? {
      TraceGrows(m, target.index, s, t);
    }
  }

  lemma {:induction false} RunGrows(m: Machine, code: Code, c: Config, n: nat)
    ensures c.t <= Run(m, code, c, n).t
    decreases n
  {
    if n > 0 {
      var c' := Step(m, code, c);
      if c.Running? && c.pc < |code| {
        ExecGrows(m, code[c.pc], c.s, c.t);
      }
      RunGrows(m, code, c', n - 1);
    }
  }

  // ----- Constants -----

  /** Constants are numbered in the order in which they are met, so no name is used twice. */
  ghost predicate NumberedFrom(consts: seq<Constant>, constId: nat) {
    forall i :: 0 <= i < |consts| ==> consts[i].cid == ConstName(constId + i)
  }

  lemma {:induction false} StmtConsts(cx: Context, st: Stmt, labelId: nat, constId: nat)
    requires LowerStmt(cx, st, labelId, constId).Some?
    ensures var x := LowerStmt(cx, st, labelId, constId).value;
            NumberedFrom(x.consts, constId) && x.constId == constId + |x.consts|
    decreases st
  {
    if !IsSimple(st) {
      var c := LowerExpr(cx.ops, st.cond).value;
      if st.If? && c.Int? {
        BlockConsts(cx, if c.value != 0 then st.thn else st.els, labelId, constId);
      } else if st.If? {
        var a := LowerBlock(cx, st.thn, labelId + 3, constId).value;
        BlockConsts(cx, st.thn, labelId + 3, constId);
        BlockConsts(cx, st.els, a.labelId, a.constId);
      } else if c != Int(0) {
        BlockConsts(cx, st.body, labelId + 3, constId);
      }
    }
  }

  lemma {:induction false} BlockConsts(cx: Context, b: Block, labelId: nat, constId: nat)
    requires LowerBlock(cx, b, labelId, constId).Some?
    ensures var x := LowerBlock(cx, b, labelId, constId).value;
            NumberedFrom(x.consts, constId) && x.constId == constId + |x.consts|
    decreases b
  {
    if b != [] {
      StmtConsts(cx, b[0], labelId, constId);
      if !b[0].Return? {
        var x := LowerStmt(cx, b[0], labelId, constId).value;
        BlockConsts(cx, b[1..], x.labelId, x.constId);
      }
    }
  }

  lemma NumberedDistinct(consts: seq<Constant>, constId: nat, i: nat, j: nat)
    requires NumberedFrom(consts, constId) && i < j < |consts|
    ensures consts[i].cid != consts[j].cid
  {
    if consts[i].cid == consts[j].cid {
      assert consts[i].cid[3..] == Decimal(constId + i) && consts[j].cid[3..] == Decimal(constId + j);
      DecimalInjective(constId + i, constId + j);
    }
  }

  /** Two constants of a function never share a name, so one table can hold them all. */
  lemma ConstantsDistinct(cx: Context, b: Block, constId: nat, i: nat, j: nat)
    requires LowerFunction(cx, b, constId).Some? && i < j < |LowerFunction(cx, b, constId).value.consts|
    ensures var consts := LowerFunction(cx, b, constId).value.consts; consts[i].cid != consts[j].cid
  {
    BlockConsts(cx, b, 0, constId);
    NumberedDistinct(LowerFunction(cx, b, constId).value.consts, constId, i, j);
  }

  // ----- A function that falls off its end -----

  /** A return in one branch suppresses the appended return, so a run that misses it falls off the end. */
  lemma FallsOffTheEnd(m: Machine, prefix: string)
    ensures var cx := Context(m.ops, prefix, false);
            var b := [If(Var("x"), [Return(Int(1))], [])];
            && LowerFunction(cx, b, 0).Some?
            && ObserveFunction(m, cx, b, 0, Store(map[], map[])) == Observation([], Some(FellOff))
  {
    var cx := Context(m.ops, prefix, false);
    var thn := [Return(Int(1))];
    var st := If(Var("x"), thn, []);
    assert [st][1..] == [];
    assert LowerBlock(cx, thn, 3, 0).Some?;
    var x := LowerStmt(cx, st, 0, 0);
    assert x.Some?;
    assert LowerBlock(cx, [st][1..], x.value.labelId, x.value.constId).Some?;
    assert EmitsReturn(m.ops, thn[0]);
    assert EmitsReturn(m.ops, [st][0]);
    var s := Store(map[], map[]);
    assert ExecStmt(m, false, st, 0, s, []) == ExecBlock(m, false, [], 0, s, []) == Normal(s, []);
    assert ExecBlock(m, false, [st], 0, s, []) == Normal(s, []);
  }
}
