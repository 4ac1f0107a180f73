/**
  Expression simplification of the O1 optimiser: constant substitution, constant folding and the algebraic
  rules, iterated to a fixed point.  `None` is the exception a fold raises where it is not defined.
 */
module Simplify {
  import opened Prelude
  import opened IR

  /** Scalars known to hold a constant. */
  type Env = map<string, int>

  // ----- A measure that every rewrite decreases -----

  function Weight(e: Expr): (w: nat)
    ensures w >= 1
    decreases e
  {
    match e
    case Int(_) => 1
    case Var(_) => 2
    case Arr(_, i) => 1 + Weight(i)
    case Call(_, args) => 1 + WeightAll(args)
    case Unary(_, x) => 1 + Weight(x)
    case Binop(_, l, r) => 3 + Weight(l) + Weight(r)
  }

  function WeightAll(es: seq<Expr>): nat
    decreases es
  {
    if es == [] then 0 else Weight(es[0]) + WeightAll(es[1..])
  }

  // ----- The rules -----

  predicate IsInt(e: Expr, v: int) {
    e == Int(v)
  }

  function NotNot(e: Expr): Expr {
    Unary(Not, Unary(Not, e))
  }

  /** The rules for a binary operator whose operands are not both constants. */
  function Algebra(op: BinOp, l: Expr, r: Expr): (x: Expr)
    ensures x == Binop(op, l, r) || Weight(x) < Weight(Binop(op, l, r))
  {
    match op
    case Add => if IsInt(l, 0) then r else if IsInt(r, 0) then l else Binop(op, l, r)
    case Sub => if IsInt(r, 0) then l else Binop(op, l, r)
    case Mul =>
      if IsInt(l, 0) || IsInt(r, 0) then Int(0)
      else if IsInt(l, 1) then r
      else if IsInt(r, 1) then l
      else Binop(op, l, r)
    case Div => if IsInt(r, 1) then l else Binop(op, l, r)
    case LAnd =>
      if IsInt(l, 0) || IsInt(r, 0) then Int(0)
      else if l.Int? then NotNot(r)
      else if r.Int? then NotNot(l)
      else Binop(op, l, r)
    case LOr =>
      if (l.Int? && l.value != 0) || (r.Int? && r.value != 0) then Int(1)
      else if l.Int? then NotNot(r)
      else if r.Int? then NotNot(l)
      else Binop(op, l, r)
    case _ => Binop(op, l, r)
  }

  function Rules(ops: Ops, op: BinOp, l: Expr, r: Expr): (x: Option<Expr>)
    ensures x.Some? ==> x.value == Binop(op, l, r) || Weight(x.value) < Weight(Binop(op, l, r))
  {
    if l.Int? && r.Int? then
      if (op == Div || op == Mod) && r.value == 0 then Some(Binop(op, l, r))
      else if ops.defined(op, l.value, r.value) then Some(Int(ops.bin(op, l.value, r.value)))
      else None
    else Some(Algebra(op, l, r))
  }

  /** One bottom-up pass over an expression; the arguments of a call are taken to their fixed point at once. */
  function SimplifyExpr(ops: Ops, e: Expr, env: Env): (r: Option<Expr>)
    ensures r.Some? ==> r.value == e || Weight(r.value) < Weight(e)
    decreases Weight(e), 0
  {
    match e
    case Int(_) => Some(e)
    case Var(x) => Some(if x in env then Int(env[x]) else e)
    case Arr(a, i) =>
      var i' :- SimplifyExpr(ops, i, env);
      Some(Arr(a, i'))
    case Call(f, args) =>
      var args' :- FixedPointAll(ops, args, env);
      Some(Call(f, args'))
    case Unary(op, x) =>
      var x' :- SimplifyExpr(ops, x, env);
      Some(if x'.Int? then Int(ops.un(op, x'.value)) else Unary(op, x'))
    case Binop(op, l, r) =>
      var l' :- SimplifyExpr(ops, l, env);
      var r' :- SimplifyExpr(ops, r, env);
      assert Weight(Binop(op, l', r')) == 3 + Weight(l') + Weight(r');
      Rules(ops, op, l', r')
  }

  /** Passes repeated until one changes nothing.  Every change lowers the weight, so this ends. */
  function FixedPoint(ops: Ops, e: Expr, env: Env): (r: Option<Expr>)
    ensures r.Some? ==> r.value == e || Weight(r.value) < Weight(e)
    decreases Weight(e), 1
  {
    var e' :- SimplifyExpr(ops, e, env);
    if e' == e then Some(e) else FixedPoint(ops, e', env)
  }

  function FixedPointAll(ops: Ops, es: seq<Expr>, env: Env): (r: Option<seq<Expr>>)
    ensures r.Some? ==> r.value == es || WeightAll(r.value) < WeightAll(es)
    decreases WeightAll(es), 2
  {
    if es == [] then Some([])
    else
      var x :- FixedPoint(ops, es[0], env);
      var xs :- FixedPointAll(ops, es[1..], env);
      assert WeightAll([x] + xs) == Weight(x) + WeightAll(xs);
      Some([x] + xs)
  }

  /** The loop of the fixed point. */
  method SimplifyFixedPoint(ops: Ops, e: Expr, env: Env) returns (r: Option<Expr>)
    ensures r == FixedPoint(ops, e, env)
    ensures r.Some? ==> SimplifyExpr(ops, r.value, env) == r
  {
    var current := e;
    while true
      invariant FixedPoint(ops, current, env) == FixedPoint(ops, e, env)
      decreases Weight(current)
    {
      var next := SimplifyExpr(ops, current, env);
      if next == None || next.value == current {
        return next;
      }
      current := next.value;
    }
  }

  // ----- Discarded operands -----

  /** The rule applied to these operands discards no operand that may call. */
  predicate SafeRule(op: BinOp, l: Expr, r: Expr) {
    match op
    case Mul => (IsInt(l, 0) ==> CallFree(r)) && (IsInt(r, 0) ==> CallFree(l))
    case LAnd => IsInt(r, 0) ==> CallFree(l)
    case LOr => r.Int? && r.value != 0 ==> CallFree(l)
    case _ => true
  }

  /** One pass over `e` discards no operand that may call. */
  predicate KeepsCalls(ops: Ops, e: Expr, env: Env)
    decreases Weight(e), 0
  {
    match e
    case Int(_) => true
    case Var(_) => true
    case Arr(_, i) => KeepsCalls(ops, i, env)
    case Call(_, args) => FixKeepsCallsAll(ops, args, env)
    case Unary(_, x) => KeepsCalls(ops, x, env)
    case Binop(op, l, r) =>
      && KeepsCalls(ops, l, env) && KeepsCalls(ops, r, env)
      && var l', r' := SimplifyExpr(ops, l, env), SimplifyExpr(ops, r, env);
         l'.Some? && r'.Some? ==> SafeRule(op, l'.value, r'.value)
  }

  /** No pass on the way to the fixed point discards an operand that may call. */
  predicate FixKeepsCalls(ops: Ops, e: Expr, env: Env)
    decreases Weight(e), 1
  {
    && KeepsCalls(ops, e, env)
    && var e' := SimplifyExpr(ops, e, env);
       e'.Some? && e'.value != e ==> FixKeepsCalls(ops, e'.value, env)
  }

  predicate FixKeepsCallsAll(ops: Ops, es: seq<Expr>, env: Env)
    decreases WeightAll(es), 2
  {
    es != [] ==> FixKeepsCalls(ops, es[0], env) && FixKeepsCallsAll(ops, es[1..], env)
  }

  // ----- Simplification preserves meaning -----

  ghost predicate Consistent(env: Env, s: Store) {
    forall x :: x in env ==> Read(s, x) == env[x]
  }

  lemma RulesSound(m: Machine, op: BinOp, l: Expr, r: Expr, s: Store, t: Trace)
    requires Lawful(m.ops)
    requires Rules(m.ops, op, l, r).Some? && SafeRule(op, l, r)
    ensures Eval(m, Rules(m.ops, op, l, r).value, s, t) == Eval(m, Binop(op, l, r), s, t)
  {
    if CallFree(l) {
      CallFreeSilent(m, l, s, t);
    }
    if CallFree(r) {
      CallFreeSilent(m, r, s, t);
    }
  }

  /** A pass that discards no call leaves value and trace alone in every frame its constants are true of. */
  lemma {:induction false} SimplifyExprSound(m: Machine, e: Expr, env: Env, s: Store, t: Trace)
    requires Lawful(m.ops) && Consistent(env, s)
    requires SimplifyExpr(m.ops, e, env).Some? && KeepsCalls(m.ops, e, env)
    ensures Eval(m, SimplifyExpr(m.ops, e, env).value, s, t) == Eval(m, e, s, t)
    decreases Weight(e), 0
  {
    match e
    case Int(_) =>
    case Var(_) =>
    case Arr(_, i) => SimplifyExprSound(m, i, env, s, t);
    case Call(_, args) => FixedPointAllSound(m, args, env, s, t);
    case Unary(_, x) => SimplifyExprSound(m, x, env, s, t);
    case Binop(op, l, r) =>
      var l', r' := SimplifyExpr(m.ops, l, env).value, SimplifyExpr(m.ops, r, env).value;
      SimplifyExprSound(m, l, env, s, t);
      SimplifyExprSound(m, r, env, s, Eval(m, l, s, t).1);
      RulesSound(m, op, l', r', s, t);
  }

  lemma {:induction false} FixedPointSound(m: Machine, e: Expr, env: Env, s: Store, t: Trace)
    requires Lawful(m.ops) && Consistent(env, s)
    requires FixedPoint(m.ops, e, env).Some? && FixKeepsCalls(m.ops, e, env)
    ensures Eval(m, FixedPoint(m.ops, e, env).value, s, t) == Eval(m, e, s, t)
    decreases Weight(e), 1
  {
    SimplifyExprSound(m, e, env, s, t);
    var e' := SimplifyExpr(m.ops, e, env).value;
    if e' != e {
      FixedPointSound(m, e', env, s, t);
    }
  }

  lemma {:induction false} FixedPointAllSound(m: Machine, es: seq<Expr>, env: Env, s: Store, t: Trace)
    requires Lawful(m.ops) && Consistent(env, s)
    requires FixedPointAll(m.ops, es, env).Some? && FixKeepsCallsAll(m.ops, es, env)
    ensures EvalAll(m, FixedPointAll(m.ops, es, env).value, s, t) == EvalAll(m, es, s, t)
    decreases WeightAll(es), 2
  {
    if es != [] {
      FixedPointSound(m, es[0], env, s, t);
      FixedPointAllSound(m, es[1..], env, s, Eval(m, es[0], s, t).1);
      var es' := FixedPointAll(m.ops, es, env).value;
      assert es'[1..] == FixedPointAll(m.ops, es[1..], env).value;
    }
  }

  // ----- Exactly when a rule is sound -----

  /** Evaluating `e` always makes a call. */
  predicate AlwaysCalls(e: Expr)
    decreases e
  {
    match e
    case Int(_) => false
    case Var(_) => false
    case Arr(_, i) => AlwaysCalls(i)
    case Call(_, _) => true
    case Unary(_, x) => AlwaysCalls(x)
    case Binop(op, l, r) => AlwaysCalls(l) || (op != LAnd && op != LOr && AlwaysCalls(r))
  }

  /** Either no call occurs in `e` or every evaluation of `e` makes one. */
  predicate Unconditional(e: Expr) {
    CallFree(e) || AlwaysCalls(e)
  }

  /** Evaluation only adds events. */
  lemma {:induction false} TraceGrows(m: Machine, e: Expr, s: Store, t: Trace)
    ensures t <= Eval(m, e, s, t).1
    ensures AlwaysCalls(e) ==> t < Eval(m, e, s, t).1
    decreases e
  {
    match e
    case Int(_) =>
    case Var(_) =>
    case Arr(_, i) => TraceGrows(m, i, s, t);
    case Call(_, args) => TraceGrowsAll(m, args, s, t);
    case Unary(_, x) => TraceGrows(m, x, s, t);
    case Binop(_, l, r) =>
      TraceGrows(m, l, s, t);
      TraceGrows(m, r, s, Eval(m, l, s, t).1);
  }

  lemma {:induction false} TraceGrowsAll(m: Machine, es: seq<Expr>, s: Store, t: Trace)
    ensures t <= EvalAll(m, es, s, t).1
    decreases es
  {
    if es != [] {
      TraceGrows(m, es[0], s, t);
      TraceGrowsAll(m, es[1..], s, Eval(m, es[0], s, t).1);
    }
  }

  /** In this frame, evaluating `e` makes no call. */
  predicate Silent(m: Machine, e: Expr, s: Store, t: Trace) {
    Eval(m, e, s, t).1 == t
  }

  /** In this frame, the operand that a rule discards makes no call. */
  predicate DiscardsSilently(m: Machine, op: BinOp, l: Expr, r: Expr, s: Store, t: Trace) {
    match op
    case Mul => (IsInt(l, 0) ==> Silent(m, r, s, t)) && (IsInt(r, 0) ==> Silent(m, l, s, t))
    case LAnd => IsInt(r, 0) ==> Silent(m, l, s, t)
    case LOr => r.Int? && r.value != 0 ==> Silent(m, l, s, t)
    case _ => true
  }

  /** A rule that discards a call shows a shorter trace. */
  lemma RulesLoseCalls(m: Machine, op: BinOp, l: Expr, r: Expr, s: Store, t: Trace)
    requires Lawful(m.ops) && Rules(m.ops, op, l, r).Some? && !DiscardsSilently(m, op, l, r, s, t)
    ensures Eval(m, Rules(m.ops, op, l, r).value, s, t).1 < Eval(m, Binop(op, l, r), s, t).1
  {
    var loud := if op == Mul && IsInt(l, 0) && !Silent(m, r, s, t) then r else l;
    TraceGrows(m, loud, s, t);
    assert Eval(m, Binop(op, l, r), s, t).1 == Eval(m, loud, s, t).1;
    assert Rules(m.ops, op, l, r).value == Int(if op == LOr then 1 else 0);
  }

  /** In any frame, a binary rule preserves value and trace if and only if what it discards makes no call. */
  lemma RulesExact(m: Machine, op: BinOp, l: Expr, r: Expr, s: Store, t: Trace)
    requires Lawful(m.ops) && Rules(m.ops, op, l, r).Some?
    ensures Eval(m, Rules(m.ops, op, l, r).value, s, t) == Eval(m, Binop(op, l, r), s, t) <==>
            DiscardsSilently(m, op, l, r, s, t)
  {
    if !DiscardsSilently(m, op, l, r, s, t) {
      RulesLoseCalls(m, op, l, r, s, t);
    }
  }

  /** For operands that call always or never, the syntactic test on discarded operands is exact. */
  lemma SafeRuleExact(m: Machine, op: BinOp, l: Expr, r: Expr)
    requires Lawful(m.ops) && Rules(m.ops, op, l, r).Some?
    requires Unconditional(l) && Unconditional(r)
    ensures SafeRule(op, l, r) <==>
            forall s, t :: Eval(m, Rules(m.ops, op, l, r).value, s, t) == Eval(m, Binop(op, l, r), s, t)
  {
    if SafeRule(op, l, r) {
      forall s, t ensures Eval(m, Rules(m.ops, op, l, r).value, s, t) == Eval(m, Binop(op, l, r), s, t) {
        RulesSound(m, op, l, r, s, t);
      }
    } else {
      var s, t := Store(map[], map[]), [];
      TraceGrows(m, l, s, t);
      TraceGrows(m, r, s, t);
      RulesLoseCalls(m, op, l, r, s, t);
      assert Eval(m, Rules(m.ops, op, l, r).value, s, t) != Eval(m, Binop(op, l, r), s, t);
    }
  }

  /** What a silent evaluation gives does not depend on what has been observed. */
  lemma {:induction false} SilentValue(m: Machine, e: Expr, s: Store, t1: Trace, t2: Trace)
    requires Silent(m, e, s, t1)
    ensures Eval(m, e, s, t2) == (Eval(m, e, s, t1).0, t2)
    decreases e
  {
    match e
    case Int(_) =>
    case Var(_) =>
    case Arr(_, i) => SilentValue(m, i, s, t1, t2);
    case Call(_, args) => TraceGrowsAll(m, args, s, t1);
    case Unary(_, x) => SilentValue(m, x, s, t1, t2);
    case Binop(_, l, r) =>
      TraceGrows(m, l, s, t1);
      TraceGrows(m, r, s, Eval(m, l, s, t1).1);
      SilentValue(m, l, s, t1, t2);
      if Silent(m, r, s, t1) {
        SilentValue(m, r, s, t1, t2);
      }
  }

  /** `f() * 0` becomes `0`, and the call to `f` is lost. */
  lemma DiscardedCallIsLost(m: Machine, s: Store)
    ensures var e := Binop(Mul, Call("f", []), Int(0));
            && FixedPoint(m.ops, e, map[]) == Some(Int(0))
            && Eval(m, e, s, []).1 == [Called("f", [])]
            && Eval(m, Int(0), s, []).1 == []
  {
    var e := Binop(Mul, Call("f", []), Int(0));
    assert SimplifyExpr(m.ops, Call("f", []), map[]) == Some(Call("f", []));
    assert SimplifyExpr(m.ops, e, map[]) == Some(Int(0));
  }

  // ----- The evaluator of the fold functions -----

  function PowerOfTwo(n: nat): nat {
    if n == 0 then 1 else 2 * PowerOfTwo(n - 1)
  }

  function Abs(x: int): nat {
    if x < 0 then -x else x
  }

  /** Truncating division, zero by convention where the folds refuse. */
  function TruncatedDiv(x: int, y: int): int {
    if y == 0 then 0
    else if (x < 0) == (y < 0) then Abs(x) / Abs(y)
    else -(Abs(x) / Abs(y))
  }

  /** The remainder that takes the divisor's sign, zero by convention where the folds refuse. */
  function FloorMod(x: int, y: int): int {
    if y == 0 then 0
    else if y > 0 then x % y
    else -((-x) % (-y))
  }

  /** A bitwise operation on two's complement integers of unbounded width. */
  function Bitwise(f: (bool, bool) -> bool, x: int, y: int): int
    decreases Abs(x) + Abs(y)
  {
    if (x == 0 || x == -1) && (y == 0 || y == -1) then
      if f(x == -1, y == -1) then -1 else 0
    else
      Truth(f(x % 2 == 1, y % 2 == 1)) + 2 * Bitwise(f, x / 2, y / 2)
  }

  function FoldUnary(op: UnOp, x: int): int {
    match op
    case Pos => x
    case Neg => -x
    case Not => Truth(x == 0)
    case Inv => -x - 1
  }

  function FoldBinary(op: BinOp, x: int, y: int): int {
    match op
    case Add => x + y
    case Sub => x - y
    case Mul => x * y
    case Div => TruncatedDiv(x, y)
    case Mod => FloorMod(x, y)
    case Shl => if y < 0 then 0 else x * PowerOfTwo(y)
    case Shr => if y < 0 then 0 else FloorDiv(x, PowerOfTwo(y))
    case BAnd => Bitwise((a, b) => a && b, x, y)
    case BOr => Bitwise((a, b) => a || b, x, y)
    case BXor => Bitwise((a, b) => a != b, x, y)
    case Eq => Truth(x == y)
    case Ne => Truth(x != y)
    case Lt => Truth(x < y)
    case Le => Truth(x <= y)
    case Gt => Truth(x > y)
    case Ge => Truth(x >= y)
    case LAnd => Truth(x != 0 && y != 0)
    case LOr => Truth(x != 0 || y != 0)
  }

  function FloorDiv(x: int, y: int): int {
    if y <= 0 then 0 else x / y
  }

  /** A shift by a negative amount raises; so does division by zero, which the rules never ask for. */
  predicate FoldDefined(op: BinOp, x: int, y: int) {
    && ((op == Shl || op == Shr) ==> y >= 0)
    && ((op == Div || op == Mod) ==> y != 0)
  }

  function FoldOps(): Ops {
    Ops(FoldUnary, FoldBinary, FoldDefined)
  }

  /** The compiler's own folds obey every law the rules rely on. */
  lemma FoldOpsLawful()
    ensures Lawful(FoldOps())
  {
    forall x ensures FoldBinary(Div, x, 1) == x {
      assert Abs(x) / 1 == Abs(x);
    }
  }
}
