/**
  The linear intermediate representation of the YHC compiler: syntax, a small-step
  semantics over label/goto code, and what it means for two functions to be
  observationally equal.

  The semantics is parametric in the operator evaluator and in the behaviour of callees.
 */
module IR {
  import opened Prelude

  datatype UnOp = Pos | Neg | Not | Inv

  datatype BinOp =
    | Add | Sub | Mul | Div | Mod | Shl | Shr | BAnd | BOr | BXor
    | Eq | Ne | Lt | Le | Gt | Ge | LAnd | LOr

  datatype Expr =
    | Int(value: int)
    | Var(name: string)
    | Arr(name: string, index: Expr)
    | Call(fn: string, args: seq<Expr>)
    | Unary(uop: UnOp, operand: Expr)
    | Binop(op: BinOp, lhs: Expr, rhs: Expr)

  datatype Target = VarTarget(name: string) | ArrTarget(name: string, index: Expr)

  datatype Instr =
    | Label(name: string)
    | Goto(dest: string)
    | IfGoto(cond: Expr, dest: string)
    | Assign(target: Target, expr: Expr)
    | ArrayZero(name: string, size: int)
    | CallInstr(fn: string, args: seq<Expr>, result: Option<Target>)
    | WriteConst(fd: int, cid: string, size: int)
    | WriteExpr(expr: Expr)
    | PauseExpr(expr: Expr)
    | ExitExpr(expr: Expr)
    | ReturnExpr(expr: Expr)

  type Code = seq<Instr>

  // ----- Operators -----

  /** An operator evaluator.  `defined` says where folding the operator does not raise. */
  datatype Ops = Ops(un: (UnOp, int) -> int, bin: (BinOp, int, int) -> int, defined: (BinOp, int, int) -> bool)

  function Truth(b: bool): int {
    if b then 1 else 0
  }

  /** The laws that the algebraic rules of the optimiser rely on. */
  ghost predicate Lawful(ops: Ops) {
    && (forall x :: ops.un(Not, x) == Truth(x == 0))
    && (forall x :: ops.bin(Add, 0, x) == x && ops.bin(Add, x, 0) == x)
    && (forall x :: ops.bin(Sub, x, 0) == x)
    && (forall x :: ops.bin(Mul, 0, x) == 0 && ops.bin(Mul, x, 0) == 0)
    && (forall x :: ops.bin(Mul, 1, x) == x && ops.bin(Mul, x, 1) == x)
    && (forall x :: ops.bin(Div, x, 1) == x)
    && (forall x, y :: ops.bin(LAnd, x, y) == Truth(x != 0 && y != 0))
    && (forall x, y :: ops.bin(LOr, x, y) == Truth(x != 0 || y != 0))
  }

  // ----- State -----

  /** A frame: scalars and array cells.  Anything absent reads as zero. */
  datatype Store = Store(vars: map<string, int>, cells: map<(string, int), int>)

  function Read(s: Store, x: string): int {
    if x in s.vars then s.vars[x] else 0
  }

  function ReadCell(s: Store, a: string, i: int): int {
    if (a, i) in s.cells then s.cells[(a, i)] else 0
  }

  function Write(s: Store, x: string, v: int): Store {
    s.(vars := s.vars[x := v])
  }

  function WriteCell(s: Store, a: string, i: int, v: int): Store {
    s.(cells := s.cells[(a, i) := v])
  }

  function ZeroCells(cells: map<(string, int), int>, a: string, size: int): map<(string, int), int>
    decreases size
  {
    if size <= 0 then cells else ZeroCells(cells, a, size - 1)[(a, size - 1) := 0]
  }

  datatype Event =
    | WroteText(fd: int, text: string, size: int)
    | WroteInt(v: int)
    | Paused(v: int)
    | Called(fn: string, args: seq<int>)

  type Trace = seq<Event>

  /** A callee is an oracle: its result may depend on everything observed so far, and it
      leaves the caller's frame alone.  `consts` is the table of string constants. */
  datatype Machine = Machine(ops: Ops, oracle: Trace -> int, consts: string -> string)

  // ----- Expressions -----

  /** The value of an expression and the trace extended by its calls.  Operands are evaluated left to
      right; `&&` and `||` skip their right operand when the left one decides. */
  function Eval(m: Machine, e: Expr, s: Store, t: Trace): (int, Trace)
    decreases e
  {
    match e
    case Int(v) => (v, t)
    case Var(x) => (Read(s, x), t)
    case Arr(a, i) =>
      var (iv, t1) := Eval(m, i, s, t);
      (ReadCell(s, a, iv), t1)
    case Call(f, args) =>
      var (vs, t1) := EvalAll(m, args, s, t);
      var t2 := t1 + [Called(f, vs)];
      (m.oracle(t2), t2)
    case Unary(op, e1) =>
      var (v, t1) := Eval(m, e1, s, t);
      (m.ops.un(op, v), t1)
    case Binop(op, l, r) =>
      var (lv, t1) := Eval(m, l, s, t);
      if op == LAnd && lv == 0 then (0, t1)
      else if op == LOr && lv != 0 then (1, t1)
      else
        var (rv, t2) := Eval(m, r, s, t1);
        (m.ops.bin(op, lv, rv), t2)
  }

  function EvalAll(m: Machine, es: seq<Expr>, s: Store, t: Trace): (seq<int>, Trace)
    decreases es
  {
    if es == [] then ([], t)
    else
      var (v, t1) := Eval(m, es[0], s, t);
      var (vs, t2) := EvalAll(m, es[1..], s, t1);
      ([v] + vs, t2)
  }

  // ----- Instructions -----

  datatype Outcome = Exited(v: int) | Returned(v: int) | FellOff | BadJump(dest: string)

  datatype Effect =
    | Next(s: Store, t: Trace)
    | Jump(dest: string, s: Store, t: Trace)
    | Halt(outcome: Outcome, t: Trace)

  /** Stores a value; an array target's index is evaluated after the value. */
  function StoreTo(m: Machine, target: Target, v: int, s: Store, t: Trace): Effect {
    match target
    case VarTarget(x) => Next(Write(s, x, v), t)
    case ArrTarget(a, i) =>
      var (iv, t1) := Eval(m, i, s, t);
      Next(WriteCell(s, a, iv, v), t1)
  }

  function Exec(m: Machine, ins: Instr, s: Store, t: Trace): Effect {
    match ins
    case Label(_) => Next(s, t)
    case Goto(l) => Jump(l, s, t)
    case IfGoto(c, l) =>
      var (v, t1) := Eval(m, c, s, t);
      if v != 0 then Jump(l, s, t1) else Next(s, t1)
    case Assign(target, e) =>
      var (v, t1) := Eval(m, e, s, t);
      StoreTo(m, target, v, s, t1)
    case ArrayZero(a, size) => Next(s.(cells := ZeroCells(s.cells, a, size)), t)
    case CallInstr(f, args, result) =>
      var (v, t1) := Eval(m, Call(f, args), s, t);
      if result.Some? then StoreTo(m, result.value, v, s, t1) else Next(s, t1)
    case WriteConst(fd, cid, size) => Next(s, t + [WroteText(fd, m.consts(cid), size)])
    case WriteExpr(e) =>
      var (v, t1) := Eval(m, e, s, t);
      Next(s, t1 + [WroteInt(v)])
    case PauseExpr(e) =>
      var (v, t1) := Eval(m, e, s, t);
      Next(s, t1 + [Paused(v)])
    case ExitExpr(e) =>
      var (v, t1) := Eval(m, e, s, t);
      Halt(Exited(v), t1)
    case ReturnExpr(e) =>
      var (v, t1) := Eval(m, e, s, t);
      Halt(Returned(v), t1)
  }

  /** Where a label is defined; of several definitions the last one, as the label tables of the passes do. */
  function LabelIndex(code: Code, l: string): (r: Option<nat>)
    ensures r.Some? ==> r.value < |code| && code[r.value] == Label(l)
    ensures forall i :: 0 <= i < |code| && code[i] == Label(l) ==> r.Some? && i <= r.value
  {
    if code == [] then None
    else if code[|code| - 1] == Label(l) then Some(|code| - 1)
    else LabelIndex(code[..|code| - 1], l)
  }

  predicate SameLabel(code: Code, i: nat, j: nat) {
    i < |code| && j < |code| && code[i].Label? && code[j].Label? && code[i].name == code[j].name
  }

  /** No label is defined twice. */
  ghost predicate UniqueLabels(code: Code) {
    forall i: nat, j: nat {:trigger SameLabel(code, i, j)} :: i < j < |code| ==> !SameLabel(code, i, j)
  }

  lemma LabelFound(code: Code, k: nat, l: string)
    requires UniqueLabels(code) && k < |code| && code[k] == Label(l)
    ensures LabelIndex(code, l) == Some(k)
  {
    var j := LabelIndex(code, l).value;
    assert !SameLabel(code, k, j) || j <= k;
  }

  // ----- Runs -----

  datatype Config = Running(pc: nat, s: Store, t: Trace) | Halted(outcome: Outcome, t: Trace)

  function Land(code: Code, pc: nat, eff: Effect): Config {
    match eff
    case Next(s, t) => Running(pc + 1, s, t)
    case Halt(o, t) => Halted(o, t)
    case Jump(l, s, t) =>
      match LabelIndex(code, l)
      case Some(k) => Running(k, s, t)
      case None => Halted(BadJump(l), t)
  }

  function Step(m: Machine, code: Code, c: Config): Config {
    if c.Halted? then c
    else if c.pc >= |code| then Halted(FellOff, c.t)
    else Land(code, c.pc, Exec(m, code[c.pc], c.s, c.t))
  }

  function Run(m: Machine, code: Code, c: Config, n: nat): Config
    decreases n
  {
    if n == 0 then c else Run(m, code, Step(m, code, c), n - 1)
  }

  /** What an observer has seen: the events so far and, once the run is over, how it ended. */
  datatype Observation = Observation(t: Trace, outcome: Option<Outcome>)

  function Observe(c: Config): Observation {
    Observation(c.t, if c.Halted? then Some(c.outcome) else None)
  }

  function ObserveRun(m: Machine, code: Code, s: Store, n: nat): Observation {
    Observe(Run(m, code, Running(0, s, []), n))
  }

  /** Some run of `code` from the frame `s` shows exactly `o`. */
  ghost predicate Shows(m: Machine, code: Code, s: Store, o: Observation) {
    exists k: nat :: ObserveRun(m, code, s, k) == o
  }

  /** Everything observable of `a` is observable of `b`. */
  ghost predicate Refines(m: Machine, a: Code, b: Code) {
    forall s: Store, n: nat :: Shows(m, b, s, ObserveRun(m, a, s, n))
  }

  /** From every initial frame the two pieces of code pass through the same observations: the same events, the
      same outcome if the run ends, and the same unending stream of events if it does not. */
  ghost predicate Equivalent(m: Machine, a: Code, b: Code) {
    Refines(m, a, b) && Refines(m, b, a)
  }

  lemma RefinesTransitive(m: Machine, a: Code, b: Code, c: Code)
    requires Refines(m, a, b) && Refines(m, b, c)
    ensures Refines(m, a, c)
  {
    forall s: Store, n: nat ensures Shows(m, c, s, ObserveRun(m, a, s, n)) {
      assert Shows(m, b, s, ObserveRun(m, a, s, n));
      var j: nat :| ObserveRun(m, b, s, j) == ObserveRun(m, a, s, n);
      assert Shows(m, c, s, ObserveRun(m, b, s, j));
    }
  }

  lemma EquivalentTransitive(m: Machine, a: Code, b: Code, c: Code)
    requires Equivalent(m, a, b) && Equivalent(m, b, c)
    ensures Equivalent(m, a, c)
  {
    RefinesTransitive(m, a, b, c);
    RefinesTransitive(m, c, b, a);
  }

  /** A halted run stays halted, so its outcome is final. */
  lemma {:induction false} HaltedStays(m: Machine, code: Code, c: Config, n: nat)
    requires c.Halted?
    ensures Run(m, code, c, n) == c
  {
    if n > 0 {
      HaltedStays(m, code, c, n - 1);
    }
  }

  lemma {:induction false} RunSplit(m: Machine, code: Code, c: Config, a: nat, b: nat)
    ensures Run(m, code, c, a + b) == Run(m, code, Run(m, code, c, a), b)
    decreases a
  {
    if a > 0 {
      RunSplit(m, code, Step(m, code, c), a - 1, b);
    }
  }

  // ----- Static views of expressions and instructions -----

  function Reads(e: Expr): set<string>
    decreases e
  {
    match e
    case Int(_) => {}
    case Var(x) => {x}
    case Arr(a, i) => {a} + Reads(i)
    case Call(_, args) => ReadsAll(args)
    case Unary(_, e1) => Reads(e1)
    case Binop(_, l, r) => Reads(l) + Reads(r)
  }

  function ReadsAll(es: seq<Expr>): set<string>
    decreases es
  {
    if es == [] then {} else Reads(es[0]) + ReadsAll(es[1..])
  }

  predicate CallFree(e: Expr)
    decreases e
  {
    match e
    case Int(_) => true
    case Var(_) => true
    case Arr(_, i) => CallFree(i)
    case Call(_, _) => false
    case Unary(_, e1) => CallFree(e1)
    case Binop(_, l, r) => CallFree(l) && CallFree(r)
  }

  /** A call-free expression observes nothing. */
  lemma {:induction false} CallFreeSilent(m: Machine, e: Expr, s: Store, t: Trace)
    requires CallFree(e)
    ensures Eval(m, e, s, t).1 == t
  {
    match e
    case Int(_) =>
    case Var(_) =>
    case Arr(_, i) => CallFreeSilent(m, i, s, t);
    case Unary(_, e1) => CallFreeSilent(m, e1, s, t);
    case Binop(_, l, r) =>
      CallFreeSilent(m, l, s, t);
      CallFreeSilent(m, r, s, t);
  }

  /** Frames that agree on some scalars and on every array cell. */
  ghost predicate AgreeOn(a: Store, b: Store, live: set<string>) {
    && a.cells == b.cells
    && forall x :: x in live ==> Read(a, x) == Read(b, x)
  }

  /** An expression depends only on what it reads. */
  lemma {:induction false} EvalAgree(m: Machine, e: Expr, a: Store, b: Store, t: Trace)
    requires AgreeOn(a, b, Reads(e))
    ensures Eval(m, e, a, t) == Eval(m, e, b, t)
    decreases e
  {
    match e
    case Int(_) =>
    case Var(_) =>
    case Arr(_, i) => EvalAgree(m, i, a, b, t);
    case Call(_, args) => EvalAllAgree(m, args, a, b, t);
    case Unary(_, e1) => EvalAgree(m, e1, a, b, t);
    case Binop(_, l, r) =>
      EvalAgree(m, l, a, b, t);
      EvalAgree(m, r, a, b, Eval(m, l, a, t).1);
  }

  lemma {:induction false} EvalAllAgree(m: Machine, es: seq<Expr>, a: Store, b: Store, t: Trace)
    requires AgreeOn(a, b, ReadsAll(es))
    ensures EvalAll(m, es, a, t) == EvalAll(m, es, b, t)
    decreases es
  {
    if es != [] {
      EvalAgree(m, es[0], a, b, t);
      EvalAllAgree(m, es[1..], a, b, Eval(m, es[0], a, t).1);
    }
  }
}
