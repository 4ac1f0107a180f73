/**
  The optimiser as a whole: the passes composed and iterated to a fixed point over a module, proved to end and to
  leave every function observationally as it was.
 */
module O1 {
  import opened Prelude
  import opened IR
  import opened PassSimulation
  import opened Simplify
  import opened Optimizer

  // ----- A measure for code -----

  function InstrWeight(ins: Instr): nat {
    match ins
    case IfGoto(c, _) => 1 + Weight(c)
    case Assign(_, e) => 1 + Weight(e)
    case CallInstr(_, args, result) =>
      1 + WeightAll(args) + (if result.Some? && result.value.ArrTarget? then Weight(result.value.index) else 0)
    case WriteExpr(e) => 1 + Weight(e)
    case PauseExpr(e) => 1 + Weight(e)
    case ExitExpr(e) => 1 + Weight(e)
    case ReturnExpr(e) => 1 + Weight(e)
    case _ => 1
  }

  function CodeWeight(code: Code): nat {
    if code == [] then 0 else CodeWeight(code[..|code| - 1]) + InstrWeight(code[|code| - 1])
  }

  /** The result is the input or strictly smaller, and never longer. */
  ghost predicate NoHeavier(code: Code, out: Code) {
    (out == code || CodeWeight(out) < CodeWeight(code)) && |out| <= |code|
  }

  ghost predicate Shrinking(code: Code, outs: seq<Code>) {
    && |outs| == |code|
    && forall i :: 0 <= i < |code| ==>
         |outs[i]| <= 1 && (outs[i] == [code[i]] || CodeWeight(outs[i]) < InstrWeight(code[i]))
  }

  lemma {:induction false} ShrinkingPass(code: Code, outs: seq<Code>)
    requires Shrinking(code, outs)
    ensures NoHeavier(code, Flatten(outs))
  {
    if code != [] {
      var n := |code| - 1;
      ShrinkingPass(code[..n], outs[..n]);
      var before, last := Flatten(outs[..n]), outs[n];
      assert code == code[..n] + [code[n]];
      if |last| == 1 {
        assert (before + last)[..|before|] == before;
        assert CodeWeight(last) == CodeWeight(last[..0]) + InstrWeight(last[0]);
      } else {
        assert before + last == before;
      }
    }
  }

  lemma KeptShrinks(code: Code, keep: nat -> bool)
    ensures NoHeavier(code, Flatten(Kept(code, keep)))
  {
    ShrinkingPass(code, Kept(code, keep));
  }

  lemma SingleWeight(ins: Instr)
    ensures CodeWeight([ins]) == InstrWeight(ins)
  {
    assert [ins][..0] == [];
  }

  lemma VisitShrinks(ops: Ops, arrays: set<string>, ins: Instr, env: Env)
    requires VisitInstr(ops, arrays, ins, env).Some?
    ensures var out := VisitInstr(ops, arrays, ins, env).value.out;
            |out| <= 1 && (out == [ins] || CodeWeight(out) < InstrWeight(ins))
  {
    var out := VisitInstr(ops, arrays, ins, env).value.out;
    if |out| == 1 {
      SingleWeight(out[0]);
    }
  }

  lemma ConstPropShrinks(ops: Ops, arrays: set<string>, code: Code)
    requires ConstProp(ops, arrays, code).Some?
    ensures NoHeavier(code, ConstProp(ops, arrays, code).value)
  {
    var outs := VisitAll(ops, arrays, code).value.outs;
    forall i | 0 <= i < |code|
      ensures |outs[i]| <= 1 && (outs[i] == [code[i]] || CodeWeight(outs[i]) < InstrWeight(code[i]))
    {
      VisitAt(ops, arrays, code, i);
      VisitShrinks(ops, arrays, code[i], VisitAll(ops, arrays, code[..i]).value.env);
    }
    ShrinkingPass(code, outs);
  }

  lemma DeadBranchesShrink(code: Code)
    ensures NoHeavier(code, RemoveDeadBranches(code))
  {
    var outs := DeadBranchOuts(code);
    forall i | 0 <= i < |code|
      ensures |outs[i]| <= 1 && (outs[i] == [code[i]] || CodeWeight(outs[i]) < InstrWeight(code[i]))
    {
      if |outs[i]| == 1 {
        SingleWeight(outs[i][0]);
      }
    }
    ShrinkingPass(code, outs);
  }

  // ----- Cleanup -----

  ghost function CleanupRound(code: Code): Code {
    DropLabels(DropJumps(code))
  }

  lemma CleanupRoundShrinks(code: Code)
    ensures NoHeavier(code, CleanupRound(code))
  {
    KeptShrinks(code, (i: nat) => !JumpToNext(code, i));
    KeptShrinks(DropJumps(code), (i: nat) => !UnusedLabel(DropJumps(code), i));
  }

  ghost function Cleanup(code: Code): Code
    decreases CodeWeight(code)
  {
    CleanupRoundShrinks(code);
    if CleanupRound(code) == code then code else Cleanup(CleanupRound(code))
  }

  lemma {:induction false} CleanupEquivalent(m: Machine, code: Code)
    requires UniqueLabels(code)
    ensures Equivalent(m, code, Cleanup(code)) && UniqueLabels(Cleanup(code)) && NoHeavier(code, Cleanup(code))
    decreases CodeWeight(code)
  {
    CleanupRoundShrinks(code);
    DropJumpsEquivalent(m, code);
    DropLabelsEquivalent(m, DropJumps(code));
    EquivalentTransitive(m, code, DropJumps(code), CleanupRound(code));
    if CleanupRound(code) != code {
      CleanupEquivalent(m, CleanupRound(code));
      EquivalentTransitive(m, code, CleanupRound(code), Cleanup(code));
    }
  }

  lemma {:induction false} CleanupShrinks(code: Code)
    ensures NoHeavier(code, Cleanup(code))
    decreases CodeWeight(code)
  {
    CleanupRoundShrinks(code);
    if CleanupRound(code) != code {
      CleanupShrinks(CleanupRound(code));
    }
  }

  // ----- One round over a function -----

  /** What the passes after constant propagation make of a list. */
  ghost function Prune(code: Code): Code {
    Cleanup(RemoveDeadStores(RemoveUnreachable(RemoveDeadBranches(code))))
  }

  ghost function OptimizeOnce(ops: Ops, arrays: set<string>, code: Code): Option<Code> {
    var c :- ConstProp(ops, arrays, code);
    Some(Prune(c))
  }

  lemma PruneEquivalent(m: Machine, code: Code)
    requires UniqueLabels(code)
    ensures Equivalent(m, code, Prune(code)) && UniqueLabels(Prune(code))
  {
    var b := RemoveDeadBranches(code);
    var u := RemoveUnreachable(b);
    var d := RemoveDeadStores(u);
    DeadBranchesEquivalent(m, code);
    UnreachableEquivalent(m, b);
    DeadStoresEquivalent(m, u);
    CleanupEquivalent(m, d);
    EquivalentTransitive(m, code, b, u);
    EquivalentTransitive(m, code, u, d);
    EquivalentTransitive(m, code, d, Prune(code));
  }

  lemma PruneShrinks(code: Code)
    ensures NoHeavier(code, Prune(code))
  {
    var b := RemoveDeadBranches(code);
    var u := RemoveUnreachable(b);
    var d := RemoveDeadStores(u);
    DeadBranchesShrink(code);
    KeptShrinks(b, (i: nat) => Reachable(b, i));
    KeptShrinks(u, (i: nat) => i < |u| && !DeadStore(u, i));
    CleanupShrinks(d);
  }

  lemma OptimizeOnceEquivalent(m: Machine, arrays: set<string>, code: Code)
    requires Lawful(m.ops) && UniqueLabels(code)
    requires OptimizeOnce(m.ops, arrays, code).Some? && ConstPropKeepsCalls(m.ops, arrays, code)
    ensures Equivalent(m, code, OptimizeOnce(m.ops, arrays, code).value)
    ensures UniqueLabels(OptimizeOnce(m.ops, arrays, code).value)
  {
    var c := ConstProp(m.ops, arrays, code).value;
    ConstPropEquivalent(m, arrays, code);
    PruneEquivalent(m, c);
    EquivalentTransitive(m, code, c, Prune(c));
  }

  lemma OptimizeOnceShrinks(ops: Ops, arrays: set<string>, code: Code)
    requires OptimizeOnce(ops, arrays, code).Some?
    ensures NoHeavier(code, OptimizeOnce(ops, arrays, code).value)
  {
    ConstPropShrinks(ops, arrays, code);
    PruneShrinks(ConstProp(ops, arrays, code).value);
  }

  // ----- A module -----

  datatype Symbol = Symbol(name: string, size: Option<int>)

  datatype Func = Func(name: string, params: seq<string>, symbols: seq<Symbol>, code: Code)

  function ArrayNames(symbols: seq<Symbol>): set<string> {
    set s | s in symbols && s.size.Some? :: s.name
  }

  function ModuleWeight(fs: seq<Func>): nat {
    if fs == [] then 0 else CodeWeight(fs[0].code) + ModuleWeight(fs[1..])
  }

  function InstructionCount(fs: seq<Func>): nat {
    if fs == [] then 0 else |fs[0].code| + InstructionCount(fs[1..])
  }

  ghost function OnceEach(ops: Ops, fs: seq<Func>): (r: Option<seq<Func>>)
    ensures r.Some? ==> |r.value| == |fs|
    ensures r.Some? ==> r.value == fs || ModuleWeight(r.value) < ModuleWeight(fs)
    ensures r.Some? ==> InstructionCount(r.value) <= InstructionCount(fs)
  {
    if fs == [] then Some([])
    else
      var code :- OptimizeOnce(ops, ArrayNames(fs[0].symbols), fs[0].code);
      var rest :- OnceEach(ops, fs[1..]);
      OptimizeOnceShrinks(ops, ArrayNames(fs[0].symbols), fs[0].code);
      Some([fs[0].(code := code)] + rest)
  }

  /** Rounds over all functions until one changes nothing.  Every change lowers the weight, so this ends. */
  ghost function OptimizeIr(ops: Ops, fs: seq<Func>): Option<seq<Func>>
    decreases ModuleWeight(fs)
  {
    var fs' :- OnceEach(ops, fs);
    if fs' == fs then Some(fs) else OptimizeIr(ops, fs')
  }

  /** Wherever the folds are defined, the rounds end in a module that another round leaves alone, no longer than the
      input. */
  lemma {:induction false} OptimizeIrSettles(ops: Ops, fs: seq<Func>)
    requires OptimizeIr(ops, fs).Some?
    ensures var gs := OptimizeIr(ops, fs).value;
            && OnceEach(ops, gs) == Some(gs)
            && ModuleWeight(gs) <= ModuleWeight(fs) && InstructionCount(gs) <= InstructionCount(fs)
            && (gs == fs || ModuleWeight(gs) < ModuleWeight(fs))
    decreases ModuleWeight(fs)
  {
    var fs' := OnceEach(ops, fs).value;
    if fs' != fs {
      OptimizeIrSettles(ops, fs');
    }
  }

  ghost predicate EachKeepsCalls(ops: Ops, fs: seq<Func>) {
    forall i :: 0 <= i < |fs| ==> ConstPropKeepsCalls(ops, ArrayNames(fs[i].symbols), fs[i].code)
  }

  /** No round on the way to the fixed point discards an operand that may call. */
  ghost predicate ModuleKeepsCalls(ops: Ops, fs: seq<Func>)
    decreases ModuleWeight(fs)
  {
    && EachKeepsCalls(ops, fs)
    && var fs' := OnceEach(ops, fs);
       fs'.Some? && fs'.value != fs ==> ModuleKeepsCalls(ops, fs'.value)
  }

  ghost predicate LabelsUniqueInEach(fs: seq<Func>) {
    forall i :: 0 <= i < |fs| ==> UniqueLabels(fs[i].code)
  }

  /** The same functions with the same interfaces, each observationally as it was. */
  ghost predicate ModulesEquivalent(m: Machine, fs: seq<Func>, gs: seq<Func>) {
    && |gs| == |fs|
    && forall i :: 0 <= i < |fs| ==>
         && gs[i] == fs[i].(code := gs[i].code)
         && Equivalent(m, fs[i].code, gs[i].code)
  }

  /** A round over the first function, and the round over the others. */
  lemma OnceEachFirst(ops: Ops, fs: seq<Func>)
    requires OnceEach(ops, fs).Some? && fs != []
    ensures var code' := OptimizeOnce(ops, ArrayNames(fs[0].symbols), fs[0].code);
            code'.Some? && OnceEach(ops, fs).value[0] == fs[0].(code := code'.value)
    ensures OnceEach(ops, fs[1..]).Some? && OnceEach(ops, fs).value[1..] == OnceEach(ops, fs[1..]).value
  {
  }

  lemma {:induction false} OnceEachAt(ops: Ops, fs: seq<Func>, i: nat)
    requires OnceEach(ops, fs).Some? && i < |fs|
    ensures var code' := OptimizeOnce(ops, ArrayNames(fs[i].symbols), fs[i].code);
            code'.Some? && OnceEach(ops, fs).value[i] == fs[i].(code := code'.value)
  {
    OnceEachFirst(ops, fs);
    if i > 0 {
      OnceEachAt(ops, fs[1..], i - 1);
    }
  }

  lemma OnceEachEquivalent(m: Machine, fs: seq<Func>)
    requires Lawful(m.ops) && LabelsUniqueInEach(fs) && EachKeepsCalls(m.ops, fs) && OnceEach(m.ops, fs).Some?
    ensures ModulesEquivalent(m, fs, OnceEach(m.ops, fs).value)
    ensures LabelsUniqueInEach(OnceEach(m.ops, fs).value)
  {
    var gs := OnceEach(m.ops, fs).value;
    forall i | 0 <= i < |fs|
      ensures gs[i] == fs[i].(code := gs[i].code) && Equivalent(m, fs[i].code, gs[i].code) && UniqueLabels(gs[i].code)
    {
      OnceEachAt(m.ops, fs, i);
      OptimizeOnceEquivalent(m, ArrayNames(fs[i].symbols), fs[i].code);
    }
  }

  lemma ModulesEquivalentTransitive(m: Machine, fs: seq<Func>, gs: seq<Func>, hs: seq<Func>)
    requires ModulesEquivalent(m, fs, gs) && ModulesEquivalent(m, gs, hs)
    ensures ModulesEquivalent(m, fs, hs)
  {
    forall i | 0 <= i < |fs| ensures hs[i] == fs[i].(code := hs[i].code) && Equivalent(m, fs[i].code, hs[i].code) {
      EquivalentTransitive(m, fs[i].code, gs[i].code, hs[i].code);
    }
  }

  /** The optimiser preserves the meaning of every function of every module with unique labels, provided no
      operand it discards may call; its result is a fixed point and no longer than its input. */
  lemma {:induction false} OptimizeIrEquivalent(m: Machine, fs: seq<Func>)
    requires Lawful(m.ops) && LabelsUniqueInEach(fs) && ModuleKeepsCalls(m.ops, fs) && OptimizeIr(m.ops, fs).Some?
    ensures var gs := OptimizeIr(m.ops, fs).value;
            && ModulesEquivalent(m, fs, gs)
            && OnceEach(m.ops, gs) == Some(gs)
            && InstructionCount(gs) <= InstructionCount(fs)
    decreases ModuleWeight(fs)
  {
    OnceEachEquivalent(m, fs);
    var fs' := OnceEach(m.ops, fs).value;
    if fs' != fs {
      OptimizeIrEquivalent(m, fs');
      ModulesEquivalentTransitive(m, fs, fs', OptimizeIr(m.ops, fs).value);
    }
  }

  // ----- A condition to check before optimising -----

  /** Multiplications have call-free operands, `&&` and `||` call-free left operands. */
  predicate Tame(e: Expr)
    decreases e
  {
    match e
    case Int(_) => true
    case Var(_) => true
    case Arr(_, i) => Tame(i)
    case Call(_, args) => TameAll(args)
    case Unary(_, x) => Tame(x)
    case Binop(op, l, r) =>
      && Tame(l) && Tame(r)
      && (op == Mul ==> CallFree(l) && CallFree(r))
      && (op == LAnd || op == LOr ==> CallFree(l))
  }

  predicate TameAll(es: seq<Expr>)
    decreases es
  {
    es != [] ==> Tame(es[0]) && TameAll(es[1..])
  }

  lemma TameRules(ops: Ops, op: BinOp, l: Expr, r: Expr)
    requires Tame(Binop(op, l, r))
    ensures SafeRule(op, l, r)
    ensures var x := Rules(ops, op, l, r);
            x.Some? ==> Tame(x.value) && (CallFree(Binop(op, l, r)) ==> CallFree(x.value))
  {
  }

  lemma {:induction false} TameSimplify(ops: Ops, e: Expr, env: Env)
    requires Tame(e)
    ensures KeepsCalls(ops, e, env)
    ensures var r := SimplifyExpr(ops, e, env); r.Some? ==> Tame(r.value) && (CallFree(e) ==> CallFree(r.value))
    decreases Weight(e), 0
  {
    match e
    case Int(_) =>
    case Var(_) =>
    case Arr(_, i) => TameSimplify(ops, i, env);
    case Call(_, args) => TameFixedPointAll(ops, args, env);
    case Unary(_, x) => TameSimplify(ops, x, env);
    case Binop(op, l, r) =>
      TameSimplify(ops, l, env);
      TameSimplify(ops, r, env);
      var l', r' := SimplifyExpr(ops, l, env), SimplifyExpr(ops, r, env);
      if l'.Some? && r'.Some? {
        TameRules(ops, op, l'.value, r'.value);
      }
  }

  lemma {:induction false} TameFixedPoint(ops: Ops, e: Expr, env: Env)
    requires Tame(e)
    ensures FixKeepsCalls(ops, e, env)
    ensures var r := FixedPoint(ops, e, env); r.Some? ==> Tame(r.value)
    decreases Weight(e), 1
  {
    TameSimplify(ops, e, env);
    var r := SimplifyExpr(ops, e, env);
    if r.Some? && r.value != e {
      TameFixedPoint(ops, r.value, env);
    }
  }

  lemma {:induction false} TameFixedPointAll(ops: Ops, es: seq<Expr>, env: Env)
    requires TameAll(es)
    ensures FixKeepsCallsAll(ops, es, env)
    ensures var r := FixedPointAll(ops, es, env); r.Some? ==> TameAll(r.value)
    decreases WeightAll(es), 2
  {
    if es != [] {
      TameFixedPoint(ops, es[0], env);
      TameFixedPointAll(ops, es[1..], env);
      var r := FixedPointAll(ops, es, env);
      if r.Some? {
        assert r.value[1..] == FixedPointAll(ops, es[1..], env).value;
      }
    }
  }

  predicate TameInstr(ins: Instr) {
    match ins
    case IfGoto(c, _) => Tame(c)
    case Assign(_, e) => Tame(e)
    case CallInstr(_, args, result) =>
      TameAll(args) && (result.Some? && result.value.ArrTarget? ==> Tame(result.value.index))
    case WriteExpr(e) => Tame(e)
    case PauseExpr(e) => Tame(e)
    case ExitExpr(e) => Tame(e)
    case ReturnExpr(e) => Tame(e)
    case _ => true
  }

  predicate TameCode(code: Code) {
    forall i :: 0 <= i < |code| ==> TameInstr(code[i])
  }

  lemma TameVisit(ops: Ops, arrays: set<string>, ins: Instr, env: Env)
    requires TameInstr(ins)
    ensures VisitKeepsCalls(ops, ins, env)
    ensures var v := VisitInstr(ops, arrays, ins, env);
            v.Some? ==> |v.value.out| <= 1 && TameCode(v.value.out)
  {
    match ins
    case IfGoto(c, _) => TameFixedPoint(ops, c, env);
    case Assign(_, e) => TameFixedPoint(ops, e, env);
    case CallInstr(_, args, result) =>
      TameFixedPointAll(ops, args, env);
      if result.Some? && result.value.ArrTarget? {
        TameFixedPoint(ops, result.value.index, env);
      }
    case WriteExpr(e) => TameFixedPoint(ops, e, env);
    case PauseExpr(e) => TameFixedPoint(ops, e, env);
    case ExitExpr(e) => TameFixedPoint(ops, e, env);
    case ReturnExpr(e) => TameFixedPoint(ops, e, env);
    case _ =>
  }

  lemma {:induction false} TameConstProp(ops: Ops, arrays: set<string>, code: Code)
    requires TameCode(code)
    ensures ConstPropKeepsCalls(ops, arrays, code)
    ensures var c := ConstProp(ops, arrays, code); c.Some? ==> TameCode(c.value)
  {
    if code != [] {
      var n := |code| - 1;
      TameConstProp(ops, arrays, code[..n]);
      var before := VisitAll(ops, arrays, code[..n]);
      if before.Some? {
        TameVisit(ops, arrays, code[n], before.value.env);
        var vs := VisitAll(ops, arrays, code);
        if vs.Some? {
          assert vs.value.outs[..n] == before.value.outs;
        }
      }
    }
  }

  lemma TameOuts(outs: seq<Code>)
    requires forall i :: 0 <= i < |outs| ==> |outs[i]| <= 1 && TameCode(outs[i])
    ensures TameCode(Flatten(outs))
  {
    forall j | 0 <= j < |Flatten(outs)| ensures TameInstr(Flatten(outs)[j]) {
      var i := Origin(outs, j);
    }
  }

  lemma TameDropJumps(code: Code)
    requires TameCode(code)
    ensures TameCode(DropJumps(code))
  {
    TameOuts(Kept(code, (i: nat) => !JumpToNext(code, i)));
  }

  lemma TameDropLabels(code: Code)
    requires TameCode(code)
    ensures TameCode(DropLabels(code))
  {
    TameOuts(Kept(code, (i: nat) => !UnusedLabel(code, i)));
  }

  lemma TameRound(code: Code)
    requires TameCode(code)
    ensures TameCode(CleanupRound(code))
  {
    TameDropJumps(code);
    TameDropLabels(DropJumps(code));
  }

  lemma {:induction false} TameCleanup(code: Code)
    requires TameCode(code)
    ensures TameCode(Cleanup(code))
    decreases CodeWeight(code)
  {
    CleanupRoundShrinks(code);
    TameRound(code);
    if CleanupRound(code) != code {
      TameCleanup(CleanupRound(code));
    }
  }

  lemma TamePrune(code: Code)
    requires TameCode(code)
    ensures TameCode(Prune(code))
  {
    var b := RemoveDeadBranches(code);
    var u := RemoveUnreachable(b);
    TameOuts(DeadBranchOuts(code));
    TameOuts(Kept(b, (i: nat) => Reachable(b, i)));
    TameOuts(Kept(u, (i: nat) => i < |u| && !DeadStore(u, i)));
    TameCleanup(RemoveDeadStores(u));
  }

  lemma TameOptimizeOnce(ops: Ops, arrays: set<string>, code: Code)
    requires TameCode(code)
    ensures ConstPropKeepsCalls(ops, arrays, code)
    ensures var c := OptimizeOnce(ops, arrays, code); c.Some? ==> TameCode(c.value)
  {
    TameConstProp(ops, arrays, code);
    if OptimizeOnce(ops, arrays, code).Some? {
      TamePrune(ConstProp(ops, arrays, code).value);
    }
  }

  /** A module whose discardable operands are call-free never loses a call. */
  lemma {:induction false} TameModuleKeepsCalls(ops: Ops, fs: seq<Func>)
    requires forall i :: 0 <= i < |fs| ==> TameCode(fs[i].code)
    ensures ModuleKeepsCalls(ops, fs)
    decreases ModuleWeight(fs)
  {
    forall i | 0 <= i < |fs| ensures ConstPropKeepsCalls(ops, ArrayNames(fs[i].symbols), fs[i].code) {
      TameOptimizeOnce(ops, ArrayNames(fs[i].symbols), fs[i].code);
    }
    var fs' := OnceEach(ops, fs);
    if fs'.Some? && fs'.value != fs {
      forall i | 0 <= i < |fs| ensures TameCode(fs'.value[i].code) {
        OnceEachAt(ops, fs, i);
        TameOptimizeOnce(ops, ArrayNames(fs[i].symbols), fs[i].code);
      }
      TameModuleKeepsCalls(ops, fs'.value);
    }
  }
}
