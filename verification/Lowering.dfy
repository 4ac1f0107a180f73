/**
  Lowering of checked statement trees to linear code: the structured semantics, the code that is emitted, and
  its labels.
 */
module Lowering {
  import opened Prelude
  import opened IR

  // ----- Structured programs -----

  datatype AssignOp = Set | Update(op: BinOp)

  /** Statements.  `els` is empty when there is no else branch and a single `If` for an else-if. */
  datatype Stmt =
    | VarDecl(name: string, size: Option<int>, init: Option<Expr>)
    | AssignStmt(target: Target, aop: AssignOp, expr: Expr)
    | IncDec(target: Target, increment: bool)
    | PrintStr(text: string)
    | PrintInt(expr: Expr)
    | Pause(expr: Expr)
    | ExprStmt(expr: Expr)
    | If(cond: Expr, thn: seq<Stmt>, els: seq<Stmt>)
    | While(cond: Expr, body: seq<Stmt>)
    | Return(expr: Expr)
    | Empty

  type Block = seq<Stmt>

  /** How a statement ends; `Timeout` is what has been seen when the fuel for loop rounds is spent. */
  datatype Result = Normal(s: Store, t: Trace) | Stopped(outcome: Outcome, t: Trace) | Timeout(t: Trace)

  function ReturnOutcome(isMain: bool, v: int): Outcome {
    if isMain then Exited(v) else Returned(v)
  }

  function AsResult(e: Effect): Result
    requires e.Next?
  {
    Normal(e.s, e.t)
  }

  /** `target op= e`: the place is found once, then the operand is evaluated, then the result is stored. */
  function UpdatePlace(m: Machine, target: Target, op: BinOp, e: Expr, s: Store, t: Trace): Result {
    match target
    case VarTarget(x) =>
      var (v, t1) := Eval(m, e, s, t);
      Normal(Write(s, x, m.ops.bin(op, Read(s, x), v)), t1)
    case ArrTarget(a, i) =>
      var (iv, t1) := Eval(m, i, s, t);
      var (v, t2) := Eval(m, e, s, t1);
      Normal(WriteCell(s, a, iv, m.ops.bin(op, ReadCell(s, a, iv), v)), t2)
  }

  /** Statements without inner blocks. */
  predicate IsSimple(st: Stmt) {
    !st.If? && !st.While?
  }

  function ExecSimple(m: Machine, isMain: bool, st: Stmt, s: Store, t: Trace): Result
    requires IsSimple(st)
  {
    match st
    case VarDecl(x, size, init) =>
      if size.Some? then Normal(s.(cells := ZeroCells(s.cells, x, size.value)), t)
      else
        var (v, t1) := if init.Some? then Eval(m, init.value, s, t) else (0, t);
        Normal(Write(s, x, v), t1)
    case AssignStmt(target, Set, e) =>
      var (v, t1) := Eval(m, e, s, t);
      AsResult(StoreTo(m, target, v, s, t1))
    case AssignStmt(target, Update(op), e) => UpdatePlace(m, target, op, e, s, t)
    case IncDec(target, increment) => UpdatePlace(m, target, Add, Int(if increment then 1 else -1), s, t)
    case PrintStr(text) => Normal(s, t + [WroteText(1, text, |text|)])
    case PrintInt(e) =>
      var (v, t1) := Eval(m, e, s, t);
      Normal(s, t1 + [WroteInt(v)])
    case Pause(e) =>
      var (v, t1) := Eval(m, e, s, t);
      Normal(s, t1 + [Paused(v)])
    case ExprStmt(e) => Normal(s, Eval(m, e, s, t).1)
    case Return(e) =>
      var (v, t1) := Eval(m, e, s, t);
      Stopped(ReturnOutcome(isMain, v), t1)
    case Empty => Normal(s, t)
  }

  function ExecStmt(m: Machine, isMain: bool, st: Stmt, fuel: nat, s: Store, t: Trace): Result
    decreases fuel, st
  {
    match st
    case If(c, thn, els) =>
      var (v, t1) := Eval(m, c, s, t);
      ExecBlock(m, isMain, if v != 0 then thn else els, fuel, s, t1)
    case While(c, body) =>
      if fuel == 0 then Timeout(t)
      else
        var (v, t1) := Eval(m, c, s, t);
        if v == 0 then Normal(s, t1)
        else
          match ExecBlock(m, isMain, body, fuel, s, t1) {
            case Normal(s2, t2) => ExecStmt(m, isMain, st, fuel - 1, s2, t2)
            case r => r
          }
    case _ => ExecSimple(m, isMain, st, s, t)
  }

  function ExecBlock(m: Machine, isMain: bool, b: Block, fuel: nat, s: Store, t: Trace): Result
    decreases fuel, b
  {
    if b == [] then Normal(s, t)
    else
      match ExecStmt(m, isMain, b[0], fuel, s, t)
      case Normal(s1, t1) => ExecBlock(m, isMain, b[1..], fuel, s1, t1)
      case r => r
  }

  // ----- Labels -----

  function Digit(d: nat): char
    requires d < 10
  {
    '0' + d as char
  }

  function Decimal(n: nat): (r: string)
    ensures r != [] && forall i :: 0 <= i < |r| ==> '0' <= r[i] <= '9'
  {
    if n < 10 then [Digit(n)] else Decimal(n / 10) + [Digit(n % 10)]
  }

  function LabelName(prefix: string, kind: string, id: nat): string {
    (if prefix == "" then kind else prefix + "_" + kind) + "_" + Decimal(id)
  }

  lemma {:induction false} DecimalInjective(i: nat, j: nat)
    requires Decimal(i) == Decimal(j)
    ensures i == j
  {
    var d, e := Decimal(i), Decimal(j);
    assert d[|d| - 1] == Digit(i % 10) && e[|e| - 1] == Digit(j % 10);
    if i >= 10 && j >= 10 {
      assert Decimal(i / 10) == d[..|d| - 1] == e[..|e| - 1] == Decimal(j / 10);
      DecimalInjective(i / 10, j / 10);
    }
  }

  /** Labels with different numbers are different, whatever they are for. */
  lemma LabelNameInjective(prefix: string, k1: string, i: nat, k2: string, j: nat)
    requires LabelName(prefix, k1, i) == LabelName(prefix, k2, j)
    ensures i == j
  {
    var l := LabelName(prefix, k1, i);
    var d, e := Decimal(i), Decimal(j);
    assert l[|l| - |d|..] == d && l[|l| - |e|..] == e;
    assert l[|l| - |d| - 1] == '_' && l[|l| - |e| - 1] == '_';
    DecimalInjective(i, j);
  }

  // ----- Lowering expressions -----

  /** Constant operands are folded as they are lowered; `None` is the exception of an undefined fold. */
  function LowerExpr(ops: Ops, e: Expr): Option<Expr>
    decreases e
  {
    match e
    case Int(_) => Some(e)
    case Var(_) => Some(e)
    case Arr(a, i) =>
      var i' :- LowerExpr(ops, i);
      Some(Arr(a, i'))
    case Call(f, args) =>
      var args' :- LowerExprs(ops, args);
      Some(Call(f, args'))
    case Unary(op, x) =>
      var x' :- LowerExpr(ops, x);
      Some(if x'.Int? then Int(ops.un(op, x'.value)) else Unary(op, x'))
    case Binop(op, l, r) =>
      var l' :- LowerExpr(ops, l);
      var r' :- LowerExpr(ops, r);
      if !l'.Int? || !r'.Int? || ((op == Div || op == Mod) && r'.value == 0) then Some(Binop(op, l', r'))
      else if ops.defined(op, l'.value, r'.value) then Some(Int(ops.bin(op, l'.value, r'.value)))
      else None
  }

  function LowerExprs(ops: Ops, es: seq<Expr>): Option<seq<Expr>>
    decreases es
  {
    if es == [] then Some([])
    else
      var x :- LowerExpr(ops, es[0]);
      var xs :- LowerExprs(ops, es[1..]);
      Some([x] + xs)
  }

  function LowerTarget(ops: Ops, target: Target): Option<Target> {
    match target
    case VarTarget(_) => Some(target)
    case ArrTarget(a, i) =>
      var i' :- LowerExpr(ops, i);
      Some(ArrTarget(a, i'))
  }

  function TargetExpr(target: Target): Expr {
    match target
    case VarTarget(x) => Var(x)
    case ArrTarget(a, i) => Arr(a, i)
  }

  lemma {:induction false} LowerExprSound(m: Machine, e: Expr, s: Store, t: Trace)
    requires Lawful(m.ops) && LowerExpr(m.ops, e).Some?
    ensures Eval(m, LowerExpr(m.ops, e).value, s, t) == Eval(m, e, s, t)
    ensures CallFree(e) ==> CallFree(LowerExpr(m.ops, e).value)
    decreases e
  {
    match e
    case Int(_) =>
    case Var(_) =>
    case Arr(_, i) => LowerExprSound(m, i, s, t);
    case Call(_, args) => LowerExprsSound(m, args, s, t);
    case Unary(_, x) => LowerExprSound(m, x, s, t);
    case Binop(_, l, r) =>
      LowerExprSound(m, l, s, t);
      LowerExprSound(m, r, s, Eval(m, l, s, t).1);
  }

  lemma {:induction false} LowerExprsSound(m: Machine, es: seq<Expr>, s: Store, t: Trace)
    requires Lawful(m.ops) && LowerExprs(m.ops, es).Some?
    ensures EvalAll(m, LowerExprs(m.ops, es).value, s, t) == EvalAll(m, es, s, t)
    decreases es
  {
    if es != [] {
      LowerExprSound(m, es[0], s, t);
      LowerExprsSound(m, es[1..], s, Eval(m, es[0], s, t).1);
      var es' := LowerExprs(m.ops, es).value;
      assert es'[1..] == LowerExprs(m.ops, es[1..]).value;
    }
  }

  // ----- Lowering statements -----

  datatype Constant = Constant(cid: string, text: string, size: int)

  /** Code for a statement, the constants it needs, the counters after it and whether a return was emitted. */
  datatype Lowered = Lowered(code: Code, consts: seq<Constant>, labelId: nat, constId: nat, hasReturn: bool)

  datatype Context = Context(ops: Ops, prefix: string, isMain: bool)

  function ReturnInstr(isMain: bool, e: Expr): Instr {
    if isMain then ExitExpr(e) else ReturnExpr(e)
  }

  function Emit(code: Code, labelId: nat, constId: nat): Lowered {
    Lowered(code, [], labelId, constId, false)
  }

  /** A value stored in a place: a call instruction when the value is a call. */
  function StoreInstr(target: Target, e: Expr): Instr {
    if e.Call? then CallInstr(e.fn, e.args, Some(target)) else Assign(target, e)
  }

  /** A place updated by an operator: the place is read as the left operand and written as the target. */
  function UpdateInstr(target: Target, op: BinOp, e: Expr): Instr {
    Assign(target, Binop(op, TargetExpr(target), e))
  }

  function ConstName(id: nat): string {
    "str" + Decimal(id)
  }

  function IfCode(c: Expr, l1: string, l2: string, l3: string, thn: Code, els: Code): Code {
    [IfGoto(c, l1), Goto(l2), Label(l1)] + thn + [Goto(l3), Label(l2)] + els + [Label(l3)]
  }

  function WhileCode(c: Expr, l1: string, l2: string, l3: string, body: Code): Code {
    [Label(l1), IfGoto(c, l2), Goto(l3), Label(l2)] + body + [Goto(l1), Label(l3)]
  }

  function LowerSimple(cx: Context, st: Stmt, labelId: nat, constId: nat): Option<Lowered>
    requires IsSimple(st)
  {
    match st
    case VarDecl(x, size, init) =>
      if size.Some? then Some(Emit([ArrayZero(x, size.value)], labelId, constId))
      else
        var e :- if init.Some? then LowerExpr(cx.ops, init.value) else Some(Int(0));
        Some(Emit([StoreInstr(VarTarget(x), e)], labelId, constId))
    case AssignStmt(target, Set, e) =>
      var target' :- LowerTarget(cx.ops, target);
      var e' :- LowerExpr(cx.ops, e);
      Some(Emit([StoreInstr(target', e')], labelId, constId))
    case AssignStmt(target, Update(op), e) =>
      var target' :- LowerTarget(cx.ops, target);
      var e' :- LowerExpr(cx.ops, e);
      Some(Emit([UpdateInstr(target', op, e')], labelId, constId))
    case IncDec(target, increment) =>
      var target' :- LowerTarget(cx.ops, target);
      Some(Emit([UpdateInstr(target', Add, Int(if increment then 1 else -1))], labelId, constId))
    case PrintStr(text) =>
      var c := Constant(ConstName(constId), text, |text|);
      Some(Lowered([WriteConst(1, c.cid, |text|)], [c], labelId, constId + 1, false))
    case PrintInt(e) =>
      var e' :- LowerExpr(cx.ops, e);
      Some(Emit([WriteExpr(e')], labelId, constId))
    case Pause(e) =>
      var e' :- LowerExpr(cx.ops, e);
      Some(Emit([PauseExpr(e')], labelId, constId))
    case ExprStmt(e) =>
      var e' :- LowerExpr(cx.ops, e);
      Some(Emit(if e'.Call? then [CallInstr(e'.fn, e'.args, None)] else [], labelId, constId))
    case Return(e) =>
      var e' :- LowerExpr(cx.ops, e);
      Some(Emit([ReturnInstr(cx.isMain, e')], labelId, constId).(hasReturn := true))
    case Empty => Some(Emit([], labelId, constId))
  }

  function LowerIf(cx: Context, st: Stmt, labelId: nat, constId: nat): Option<Lowered>
    requires st.If?
    decreases st, 0
  {
    var c :- LowerExpr(cx.ops, st.cond);
    if c.Int? then LowerBlock(cx, if c.value != 0 then st.thn else st.els, labelId, constId)
    else
      var l1 := LabelName(cx.prefix, "if_then", labelId + 1);
      var l2 := LabelName(cx.prefix, "if_else", labelId + 2);
      var l3 := LabelName(cx.prefix, "if_end", labelId + 3);
      var a :- LowerBlock(cx, st.thn, labelId + 3, constId);
      var b :- LowerBlock(cx, st.els, a.labelId, a.constId);
      Some(Lowered(IfCode(c, l1, l2, l3, a.code, b.code), a.consts + b.consts,
                   b.labelId, b.constId, a.hasReturn || b.hasReturn))
  }

  function LowerWhile(cx: Context, st: Stmt, labelId: nat, constId: nat): Option<Lowered>
    requires st.While?
    decreases st, 0
  {
    var c :- LowerExpr(cx.ops, st.cond);
    if c == Int(0) then Some(Emit([], labelId, constId))
    else
      var l1 := LabelName(cx.prefix, "while_cond", labelId + 1);
      var l2 := LabelName(cx.prefix, "while_body", labelId + 2);
      var l3 := LabelName(cx.prefix, "while_end", labelId + 3);
      var a :- LowerBlock(cx, st.body, labelId + 3, constId);
      Some(a.(code := WhileCode(c, l1, l2, l3, a.code)))
  }

  function LowerStmt(cx: Context, st: Stmt, labelId: nat, constId: nat): Option<Lowered>
    decreases st, 1
  {
    if st.If? then LowerIf(cx, st, labelId, constId)
    else if st.While? then LowerWhile(cx, st, labelId, constId)
    else LowerSimple(cx, st, labelId, constId)
  }

  /** A block is lowered up to its first return. */
  function LowerBlock(cx: Context, b: Block, labelId: nat, constId: nat): Option<Lowered>
    decreases b
  {
    if b == [] then Some(Emit([], labelId, constId))
    else
      var x :- LowerStmt(cx, b[0], labelId, constId);
      if b[0].Return? then Some(x)
      else
        var y :- LowerBlock(cx, b[1..], x.labelId, x.constId);
        Some(Lowered(x.code + y.code, x.consts + y.consts, y.labelId, y.constId, x.hasReturn || y.hasReturn))
  }

  /** A whole function body: a return of zero is appended only when no return was emitted. */
  function LowerFunction(cx: Context, b: Block, constId: nat): Option<Lowered> {
    var x :- LowerBlock(cx, b, 0, constId);
    Some(if x.hasReturn then x else x.(code := x.code + [ReturnInstr(cx.isMain, Int(0))]))
  }

  // ----- Emitted labels -----

  ghost predicate Above(lo: nat, id: nat) {
    lo < id
  }

  /** The numbers handed out after `lo` up to `hi`. */
  ghost function Fresh(lo: nat, hi: nat): set<nat> {
    set id: nat | id <= hi && Above(lo, id)
  }

  /** The labels defined in the code are distinct and numbered from `ids`. */
  ghost predicate LabelsFrom(code: Code, prefix: string, ids: set<nat>) {
    && UniqueLabels(code)
    && forall i :: 0 <= i < |code| && code[i].Label? ==>
         exists kind, id :: id in ids && code[i].name == LabelName(prefix, kind, id)
  }

  lemma LabelsJoin(a: Code, b: Code, prefix: string, ids1: set<nat>, ids2: set<nat>)
    requires LabelsFrom(a, prefix, ids1) && LabelsFrom(b, prefix, ids2) && ids1 !! ids2
    ensures LabelsFrom(a + b, prefix, ids1 + ids2)
  {
    var c := a + b;
    forall i: nat, j: nat | i < j < |c| && SameLabel(c, i, j) ensures false {
      if j < |a| {
        assert SameLabel(a, i, j);
      }
      if |a| <= i {
        assert SameLabel(b, i - |a|, j - |a|);
      }
      assert c[i] == a[i] && c[j] == b[j - |a|];
      var k1, id1 :| id1 in ids1 && a[i].name == LabelName(prefix, k1, id1);
      var k2, id2 :| id2 in ids2 && b[j - |a|].name == LabelName(prefix, k2, id2);
      if c[i].name == c[j].name {
        LabelNameInjective(prefix, k1, id1, k2, id2);
      }
    }
    forall i | 0 <= i < |c| && c[i].Label?
      ensures exists kind, id :: id in ids1 + ids2 && c[i].name == LabelName(prefix, kind, id)
    {
      if i < |a| {
        var k, id :| id in ids1 && a[i].name == LabelName(prefix, k, id);
        assert id in ids1 + ids2;
      } else {
        var k, id :| id in ids2 && b[i - |a|].name == LabelName(prefix, k, id);
        assert id in ids1 + ids2;
      }
    }
  }

  lemma LabelsWiden(code: Code, prefix: string, ids1: set<nat>, ids2: set<nat>)
    requires LabelsFrom(code, prefix, ids1) && ids1 <= ids2
    ensures LabelsFrom(code, prefix, ids2)
  {
    forall i | 0 <= i < |code| && code[i].Label?
      ensures exists kind, id :: id in ids2 && code[i].name == LabelName(prefix, kind, id)
    {
      var k, id :| id in ids1 && code[i].name == LabelName(prefix, k, id);
      assert id in ids2;
    }
  }

  lemma LastLabel(before: Code, prefix: string, kind: string, id: nat)
    requires forall i :: 0 <= i < |before| ==> !before[i].Label?
    ensures LabelsFrom(before + [Label(LabelName(prefix, kind, id))], prefix, {id})
  {
  }

  lemma LabelsJoin4(a: Code, b: Code, c: Code, d: Code, prefix: string,
                    ids1: set<nat>, ids2: set<nat>, ids3: set<nat>, ids4: set<nat>, all: set<nat>)
    requires LabelsFrom(a, prefix, ids1) && LabelsFrom(b, prefix, ids2)
    requires LabelsFrom(c, prefix, ids3) && LabelsFrom(d, prefix, ids4)
    requires ids1 !! ids2 !! ids3 !! ids4
    requires ids1 + ids2 + ids3 + ids4 <= all
    ensures LabelsFrom(a + b + c + d, prefix, all)
  {
    LabelsJoin(a, b, prefix, ids1, ids2);
    LabelsJoin(a + b, c, prefix, ids1 + ids2, ids3);
    LabelsJoin(a + b + c, d, prefix, ids1 + ids2 + ids3, ids4);
    LabelsWiden(a + b + c + d, prefix, ids1 + ids2 + ids3 + ids4, all);
  }

  lemma IfLabels(c: Expr, prefix: string, thn: Code, els: Code, n: nat, mid: nat, hi: nat)
    requires n + 3 <= mid <= hi
    requires LabelsFrom(thn, prefix, Fresh(n + 3, mid)) && LabelsFrom(els, prefix, Fresh(mid, hi))
    ensures LabelsFrom(IfCode(c, LabelName(prefix, "if_then", n + 1), LabelName(prefix, "if_else", n + 2),
                              LabelName(prefix, "if_end", n + 3), thn, els), prefix, Fresh(n, hi))
  {
    var l1, l2, l3 :=
      LabelName(prefix, "if_then", n + 1), LabelName(prefix, "if_else", n + 2), LabelName(prefix, "if_end", n + 3);
    var p, q := [IfGoto(c, l1), Goto(l2)] + [Label(l1)], [Goto(l3)] + [Label(l2)];
    LastLabel([IfGoto(c, l1), Goto(l2)], prefix, "if_then", n + 1);
    LastLabel([Goto(l3)], prefix, "if_else", n + 2);
    LastLabel([], prefix, "if_end", n + 3);
    assert [] + [Label(l3)] == [Label(l3)];
    LabelsJoin(els, [Label(l3)], prefix, Fresh(mid, hi), {n + 3});
    LabelsJoin4(p, thn, q, els + [Label(l3)], prefix,
                {n + 1}, Fresh(n + 3, mid), {n + 2}, Fresh(mid, hi) + {n + 3}, Fresh(n, hi));
    assert IfCode(c, l1, l2, l3, thn, els) == p + thn + q + (els + [Label(l3)]);
  }

  lemma WhileLabels(c: Expr, prefix: string, body: Code, n: nat, hi: nat)
    requires n + 3 <= hi && LabelsFrom(body, prefix, Fresh(n + 3, hi))
    ensures LabelsFrom(WhileCode(c, LabelName(prefix, "while_cond", n + 1), LabelName(prefix, "while_body", n + 2),
                                 LabelName(prefix, "while_end", n + 3), body), prefix, Fresh(n, hi))
  {
    var l1, l2, l3 :=
      LabelName(prefix, "while_cond", n + 1), LabelName(prefix, "while_body", n + 2),
      LabelName(prefix, "while_end", n + 3);
    var p, q, r := [] + [Label(l1)], [IfGoto(c, l2), Goto(l3)] + [Label(l2)], [Goto(l1)] + [Label(l3)];
    LastLabel([], prefix, "while_cond", n + 1);
    LastLabel([IfGoto(c, l2), Goto(l3)], prefix, "while_body", n + 2);
    LastLabel([Goto(l1)], prefix, "while_end", n + 3);
    LabelsJoin4(p, q, body, r, prefix, {n + 1}, {n + 2}, Fresh(n + 3, hi), {n + 3}, Fresh(n, hi));
    assert WhileCode(c, l1, l2, l3, body) == p + q + body + r;
  }

  /** Every jump in the code goes to a label defined in it. */
  ghost predicate TargetsDefined(code: Code) {
    forall i :: 0 <= i < |code| && (code[i].Goto? || code[i].IfGoto?) ==> Label(code[i].dest) in code
  }

  lemma TargetsJoin(a: Code, b: Code, c: Code)
    requires TargetsDefined(b)
    ensures forall i :: |a| <= i < |a + b| && ((a + b + c)[i].Goto? || (a + b + c)[i].IfGoto?) ==>
              Label((a + b + c)[i].dest) in a + b + c
  {
    forall i | |a| <= i < |a + b| && ((a + b + c)[i].Goto? || (a + b + c)[i].IfGoto?)
      ensures Label((a + b + c)[i].dest) in a + b + c
    {
      assert (a + b + c)[i] == b[i - |a|];
      assert Label(b[i - |a|].dest) in b;
    }
  }

  lemma TargetsConcat(a: Code, b: Code)
    requires TargetsDefined(a) && TargetsDefined(b)
    ensures TargetsDefined(a + b)
  {
    TargetsJoin([], a, b);
    TargetsJoin(a, b, []);
    assert [] + a + b == a + b == a + b + [];
  }

  lemma IfTargets(c: Expr, l1: string, l2: string, l3: string, thn: Code, els: Code)
    requires TargetsDefined(thn) && TargetsDefined(els)
    ensures TargetsDefined(IfCode(c, l1, l2, l3, thn, els))
  {
    var code := IfCode(c, l1, l2, l3, thn, els);
    var a := [IfGoto(c, l1), Goto(l2), Label(l1)];
    var d := [Goto(l3), Label(l2)];
    TargetsJoin(a, thn, d + els + [Label(l3)]);
    assert code == a + thn + (d + els + [Label(l3)]);
    TargetsJoin(a + thn + d, els, [Label(l3)]);
    assert code[2] == Label(l1) && code[|a + thn| + 1] == Label(l2) && code[|code| - 1] == Label(l3);
  }

  lemma WhileTargets(c: Expr, l1: string, l2: string, l3: string, body: Code)
    requires TargetsDefined(body)
    ensures TargetsDefined(WhileCode(c, l1, l2, l3, body))
  {
    var code := WhileCode(c, l1, l2, l3, body);
    var a := [Label(l1), IfGoto(c, l2), Goto(l3), Label(l2)];
    TargetsJoin(a, body, [Goto(l1), Label(l3)]);
    assert code[0] == Label(l1) && code[3] == Label(l2) && code[|code| - 1] == Label(l3);
  }

  lemma SimpleLabels(cx: Context, st: Stmt, labelId: nat, constId: nat)
    requires IsSimple(st) && LowerSimple(cx, st, labelId, constId).Some?
    ensures var x := LowerSimple(cx, st, labelId, constId).value;
            labelId == x.labelId && LabelsFrom(x.code, cx.prefix, {}) && TargetsDefined(x.code)
  {
  }

  /** Labels are numbered from those handed out to the statement and distinct; its jumps stay inside it. */
  lemma {:induction false} StmtLabels(cx: Context, st: Stmt, labelId: nat, constId: nat)
    requires LowerStmt(cx, st, labelId, constId).Some?
    ensures var x := LowerStmt(cx, st, labelId, constId).value;
            labelId <= x.labelId && LabelsFrom(x.code, cx.prefix, Fresh(labelId, x.labelId)) && TargetsDefined(x.code)
    decreases st
  {
    if IsSimple(st) {
      SimpleLabels(cx, st, labelId, constId);
    } else {
      var c := LowerExpr(cx.ops, st.cond).value;
      if st.If? && c.Int? {
        BlockLabels(cx, if c.value != 0 then st.thn else st.els, labelId, constId);
      } else if st.If? {
        var a := LowerBlock(cx, st.thn, labelId + 3, constId).value;
        var b := LowerBlock(cx, st.els, a.labelId, a.constId).value;
        BlockLabels(cx, st.thn, labelId + 3, constId);
        BlockLabels(cx, st.els, a.labelId, a.constId);
        IfLabels(c, cx.prefix, a.code, b.code, labelId, a.labelId, b.labelId);
        IfTargets(c, LabelName(cx.prefix, "if_then", labelId + 1), LabelName(cx.prefix, "if_else", labelId + 2),
                  LabelName(cx.prefix, "if_end", labelId + 3), a.code, b.code);
      } else if c != Int(0) {
        var a := LowerBlock(cx, st.body, labelId + 3, constId).value;
        BlockLabels(cx, st.body, labelId + 3, constId);
        WhileLabels(c, cx.prefix, a.code, labelId, a.labelId);
        WhileTargets(c, LabelName(cx.prefix, "while_cond", labelId + 1),
                     LabelName(cx.prefix, "while_body", labelId + 2), LabelName(cx.prefix, "while_end", labelId + 3),
                     a.code);
      }
    }
  }

  lemma {:induction false} BlockLabels(cx: Context, b: Block, labelId: nat, constId: nat)
    requires LowerBlock(cx, b, labelId, constId).Some?
    ensures var x := LowerBlock(cx, b, labelId, constId).value;
            labelId <= x.labelId && LabelsFrom(x.code, cx.prefix, Fresh(labelId, x.labelId)) && TargetsDefined(x.code)
    decreases b
  {
    if b != [] {
      StmtLabels(cx, b[0], labelId, constId);
      if !b[0].Return? {
        var x := LowerStmt(cx, b[0], labelId, constId).value;
        BlockLabels(cx, b[1..], x.labelId, x.constId);
        var y := LowerBlock(cx, b[1..], x.labelId, x.constId).value;
        LabelsJoin(x.code, y.code, cx.prefix, Fresh(labelId, x.labelId), Fresh(x.labelId, y.labelId));
        LabelsWiden(x.code + y.code, cx.prefix, Fresh(labelId, x.labelId) + Fresh(x.labelId, y.labelId),
                    Fresh(labelId, y.labelId));
        TargetsConcat(x.code, y.code);
      }
    }
  }

  lemma AppendReturn(code: Code, isMain: bool)
    requires UniqueLabels(code) && TargetsDefined(code)
    ensures UniqueLabels(code + [ReturnInstr(isMain, Int(0))]) && TargetsDefined(code + [ReturnInstr(isMain, Int(0))])
  {
    var last := [ReturnInstr(isMain, Int(0))];
    forall i: nat, j: nat | i < j < |code + last| ensures !SameLabel(code + last, i, j) {
      assert j < |code| ==> !SameLabel(code, i, j);
    }
    TargetsJoin([], code, last);
    assert [] + code == code;
  }

  /** The code of every function has distinct labels, and every branch target is defined. */
  lemma FunctionLabels(cx: Context, b: Block, constId: nat)
    requires LowerFunction(cx, b, constId).Some?
    ensures UniqueLabels(LowerFunction(cx, b, constId).value.code)
    ensures TargetsDefined(LowerFunction(cx, b, constId).value.code)
  {
    BlockLabels(cx, b, 0, constId);
    AppendReturn(LowerBlock(cx, b, 0, constId).value.code, cx.isMain);
  }
}
