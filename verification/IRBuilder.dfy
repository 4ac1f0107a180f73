/** The builder that lowers a function: it appends to its lists and bumps its counters as it goes. */
module IRBuilder {
  import opened Prelude
  import opened IR
  import L = Lowering

  /** Code after code already emitted. */
  function Append(x: L.Lowered, y: L.Lowered): L.Lowered {
    L.Lowered(x.code + y.code, x.consts + y.consts, y.labelId, y.constId, x.hasReturn || y.hasReturn)
  }

  lemma IfAppended(pre: Code, c: Expr, l1: string, l2: string, l3: string, thn: Code, els: Code)
    ensures pre + [IfGoto(c, l1), Goto(l2), Label(l1)] + thn + [Goto(l3), Label(l2)] + els + [Label(l3)]
            == pre + L.IfCode(c, l1, l2, l3, thn, els)
  {
  }

  lemma WhileAppended(pre: Code, c: Expr, l1: string, l2: string, l3: string, body: Code)
    ensures pre + [Label(l1), IfGoto(c, l2), Goto(l3), Label(l2)] + body + [Goto(l1), Label(l3)]
            == pre + L.WhileCode(c, l1, l2, l3, body)
  {
  }

  class Builder {
    const cx: L.Context
    var instructions: Code
    var constants: seq<L.Constant>
    var labelId: nat
    var constId: nat
    var hasReturn: bool

    function View(): L.Lowered
      reads this
    {
      L.Lowered(instructions, constants, labelId, constId, hasReturn)
    }

    constructor (cx: L.Context, constId: nat)
      ensures this.cx == cx && View() == L.Emit([], 0, constId)
    {
      this.cx := cx;
      instructions, constants, labelId, hasReturn := [], [], 0, false;
      this.constId := constId;
    }

    /** The new label is none of those issued before, whatever they are for, so no instruction defines it yet. */
    method FreshLabel(kind: string) returns (l: string)
      modifies this
      ensures l == L.LabelName(cx.prefix, kind, old(labelId) + 1)
      ensures View() == old(View()).(labelId := old(labelId) + 1)
      ensures forall other: string, id: nat :: id <= old(labelId) ==> l != L.LabelName(cx.prefix, other, id)
      ensures L.LabelsFrom(instructions, cx.prefix, L.Fresh(0, old(labelId))) ==> Label(l) !in instructions
    {
      labelId := labelId + 1;
      l := L.LabelName(cx.prefix, kind, labelId);
      forall other: string, id: nat | id <= old(labelId) ensures l != L.LabelName(cx.prefix, other, id) {
        if l == L.LabelName(cx.prefix, other, id) {
          L.LabelNameInjective(cx.prefix, kind, labelId, other, id);
        }
      }
    }

    method Add(code: Code)
      modifies this
      ensures View() == old(View()).(code := old(instructions) + code)
    {
      instructions := instructions + code;
    }

    method AddConstString(text: string) returns (cid: string)
      modifies this
      ensures cid == L.ConstName(old(constId))
      ensures View() == old(View()).(constId := old(constId) + 1,
                                     consts := old(constants) + [L.Constant(cid, text, |text|)])
    {
      cid := L.ConstName(constId);
      constId := constId + 1;
      constants := constants + [L.Constant(cid, text, |text|)];
    }

    /** Statements without inner blocks; `ok` is false when a fold raised. */
    method LowerSimple(st: L.Stmt) returns (ok: bool)
      requires L.IsSimple(st)
      modifies this
      ensures ok <==> L.LowerSimple(cx, st, old(labelId), old(constId)).Some?
      ensures ok ==> View() == Append(old(View()), L.LowerSimple(cx, st, old(labelId), old(constId)).value)
    {
      if st.PrintStr? {
        var cid := AddConstString(st.text);
        Add([WriteConst(1, cid, |st.text|)]);
        return true;
      }
      var x := L.LowerSimple(cx, st, labelId, constId);
      if x == None {
        return false;
      }
      instructions := instructions + x.value.code;
      hasReturn := hasReturn || st.Return?;
      return true;
    }

    method LowerIf(st: L.Stmt) returns (ok: bool)
      requires st.If?
      modifies this
      ensures ok <==> L.LowerIf(cx, st, old(labelId), old(constId)).Some?
      ensures ok ==> View() == Append(old(View()), L.LowerIf(cx, st, old(labelId), old(constId)).value)
      decreases st, 1
    {
      var c := L.LowerExpr(cx.ops, st.cond);
      if c == None {
        return false;
      }
      if c.value.Int? {
        ok := LowerBlock(if c.value.value != 0 then st.thn else st.els);
        return ok;
      }
      var l1 := FreshLabel("if_then");
      var l2 := FreshLabel("if_else");
      var l3 := FreshLabel("if_end");
      ok := LowerBranches(st, c.value, l1, l2, l3);
    }

    /** The code of an if whose labels have been handed out. */
    method LowerBranches(st: L.Stmt, c: Expr, l1: string, l2: string, l3: string) returns (ok: bool)
      requires st.If?
      modifies this
      ensures var a := L.LowerBlock(cx, st.thn, old(labelId), old(constId));
              && (ok <==> a.Some? && L.LowerBlock(cx, st.els, a.value.labelId, a.value.constId).Some?)
              && (ok ==>
                    var b := L.LowerBlock(cx, st.els, a.value.labelId, a.value.constId);
                    View() == Append(old(View()),
                                     L.Lowered(L.IfCode(c, l1, l2, l3, a.value.code, b.value.code),
                                               a.value.consts + b.value.consts, b.value.labelId, b.value.constId,
                                               a.value.hasReturn || b.value.hasReturn)))
      decreases st, 0
    {
      ghost var pre, preConsts := instructions, constants;
      Add([IfGoto(c, l1), Goto(l2), Label(l1)]);
      ok := LowerBlock(st.thn);
      if !ok {
        return;
      }
      ghost var a := L.LowerBlock(cx, st.thn, old(labelId), old(constId)).value;
      Add([Goto(l3), Label(l2)]);
      ok := LowerBlock(st.els);
      if !ok {
        return;
      }
      ghost var b := L.LowerBlock(cx, st.els, a.labelId, a.constId).value;
      Add([Label(l3)]);
      IfAppended(pre, c, l1, l2, l3, a.code, b.code);
      assert preConsts + a.consts + b.consts == preConsts + (a.consts + b.consts);
    }

    method LowerWhile(st: L.Stmt) returns (ok: bool)
      requires st.While?
      modifies this
      ensures ok <==> L.LowerWhile(cx, st, old(labelId), old(constId)).Some?
      ensures ok ==> View() == Append(old(View()), L.LowerWhile(cx, st, old(labelId), old(constId)).value)
      decreases st, 1
    {
      var c := L.LowerExpr(cx.ops, st.cond);
      if c == None {
        return false;
      }
      if c.value == Int(0) {
        return true;
      }
      var l1 := FreshLabel("while_cond");
      var l2 := FreshLabel("while_body");
      var l3 := FreshLabel("while_end");
      ok := LowerLoop(st, c.value, l1, l2, l3);
    }

    /** The code of a while whose labels have been handed out. */
    method LowerLoop(st: L.Stmt, c: Expr, l1: string, l2: string, l3: string) returns (ok: bool)
      requires st.While?
      modifies this
      ensures var a := L.LowerBlock(cx, st.body, old(labelId), old(constId));
              && (ok <==> a.Some?)
              && (ok ==> View() == Append(old(View()), a.value.(code := L.WhileCode(c, l1, l2, l3, a.value.code))))
      decreases st, 0
    {
      ghost var pre := instructions;
      Add([Label(l1), IfGoto(c, l2), Goto(l3), Label(l2)]);
      ok := LowerBlock(st.body);
      if !ok {
        return;
      }
      ghost var a := L.LowerBlock(cx, st.body, old(labelId), old(constId)).value;
      Add([Goto(l1), Label(l3)]);
      WhileAppended(pre, c, l1, l2, l3, a.code);
    }

    method LowerStmt(st: L.Stmt) returns (ok: bool)
      modifies this
      ensures ok <==> L.LowerStmt(cx, st, old(labelId), old(constId)).Some?
      ensures ok ==> View() == Append(old(View()), L.LowerStmt(cx, st, old(labelId), old(constId)).value)
      decreases st, 2
    {
      if st.If? {
        ok := LowerIf(st);
      } else if st.While? {
        ok := LowerWhile(st);
      } else {
        ok := LowerSimple(st);
      }
    }

    method LowerBlock(b: L.Block) returns (ok: bool)
      modifies this
      ensures ok <==> L.LowerBlock(cx, b, old(labelId), old(constId)).Some?
      ensures ok ==> View() == Append(old(View()), L.LowerBlock(cx, b, old(labelId), old(constId)).value)
      decreases b
    {
      if b == [] {
        return true;
      }
      ok := LowerStmt(b[0]);
      if !ok || b[0].Return? {
        return;
      }
      ok := LowerBlock(b[1..]);
    }

    /** From the end of what was emitted, one step ends the function: with a return of zero, or, when some return
        was emitted, by falling off the end. */
    method Finalize()
      modifies this
      ensures forall m: Machine, s: Store, t: Trace ::
                Step(m, instructions, Running(|old(instructions)|, s, t))
                == Halted(if old(hasReturn) then FellOff else L.ReturnOutcome(cx.isMain, 0), t)
      ensures View() == old(View()).(code := if old(hasReturn) then old(instructions)
                                             else old(instructions) + [L.ReturnInstr(cx.isMain, Int(0))])
    {
      if !hasReturn {
        Add([L.ReturnInstr(cx.isMain, Int(0))]);
      }
    }
  }

  /** Lowers one function, as the driver does. */
  method LowerFunction(cx: L.Context, b: L.Block, constId: nat) returns (r: Option<L.Lowered>)
    ensures r == L.LowerFunction(cx, b, constId)
  {
    var builder := new Builder(cx, constId);
    var ok := builder.LowerBlock(b);
    if !ok {
      return None;
    }
    ghost var x := L.LowerBlock(cx, b, 0, constId).value;
    assert [] + x.code == x.code && [] + x.consts == x.consts;
    builder.Finalize();
    return Some(builder.View());
  }
}

/** The compiler's middle: lowering of a whole program followed by optimisation. */
module Pipeline {
  import opened Prelude
  import opened IR
  import opened Lowering
  import opened LoweringProof
  import B = IRBuilder
  import O1

  /** A checked function. */
  datatype Source = Source(name: string, params: seq<string>, symbols: seq<O1.Symbol>, body: Block)

  /** A main function that is alone has labels without a prefix; otherwise each function's name is its prefix. */
  predicate Alone(fs: seq<Source>) {
    |fs| == 1 && fs[0].name == "main"
  }

  function ContextOf(ops: Ops, alone: bool, f: Source): Context {
    Context(ops, if alone then "" else f.name, f.name == "main")
  }

  datatype Program = Program(funcs: seq<O1.Func>, consts: seq<Constant>)

  function Emitted(f: Source, code: Code): O1.Func {
    O1.Func(f.name, f.params, f.symbols, code)
  }

  function Prepend(funcs: seq<O1.Func>, consts: seq<Constant>, rest: Option<Program>): Option<Program> {
    if rest == None then None else Some(Program(funcs + rest.value.funcs, consts + rest.value.consts))
  }

  /** The functions in order; the numbering of constants runs on from one to the next. */
  function LowerAll(ops: Ops, alone: bool, fs: seq<Source>, constId: nat): Option<Program> {
    if fs == [] then Some(Program([], []))
    else
      var x :- LowerFunction(ContextOf(ops, alone, fs[0]), fs[0].body, constId);
      Prepend([Emitted(fs[0], x.code)], x.consts, LowerAll(ops, alone, fs[1..], x.constId))
  }

  lemma PrependOne(funcs: seq<O1.Func>, consts: seq<Constant>, f: O1.Func, cs: seq<Constant>, rest: Option<Program>)
    ensures Prepend(funcs, consts, Prepend([f], cs, rest)) == Prepend(funcs + [f], consts + cs, rest)
  {
    if rest.Some? {
      assert funcs + [f] + rest.value.funcs == funcs + ([f] + rest.value.funcs);
      assert consts + cs + rest.value.consts == consts + (cs + rest.value.consts);
    }
  }

  /** The driver's loop over the functions of a program. */
  method LowerProgram(ops: Ops, fs: seq<Source>) returns (r: Option<Program>)
    ensures r == LowerAll(ops, Alone(fs), fs, 0)
  {
    var alone := Alone(fs);
    var funcs: seq<O1.Func>, consts: seq<Constant>, constId: nat := [], [], 0;
    ghost var whole := LowerAll(ops, alone, fs, 0);
    assert fs[0..] == fs;
    assert whole.Some? ==> [] + whole.value.funcs == whole.value.funcs && [] + whole.value.consts == whole.value.consts;
    for i := 0 to |fs|
      invariant Prepend(funcs, consts, LowerAll(ops, alone, fs[i..], constId)) == whole
    {
      var x := B.LowerFunction(ContextOf(ops, alone, fs[i]), fs[i].body, constId);
      if x == None {
        return None;
      }
      assert fs[i..][1..] == fs[i + 1..];
      PrependOne(funcs, consts, Emitted(fs[i], x.value.code), x.value.consts,
                 LowerAll(ops, alone, fs[i + 1..], x.value.constId));
      funcs := funcs + [Emitted(fs[i], x.value.code)];
      consts := consts + x.value.consts;
      constId := x.value.constId;
    }
    r := Some(Program(funcs, consts));
    assert funcs + [] == funcs && consts + [] == consts;
  }

  /** Function `k` of a lowered program is function `k` lowered, and the program holds its constants. */
  lemma {:induction false} LoweredAt(m: Machine, alone: bool, fs: seq<Source>, constId: nat, k: nat) returns (c: nat)
    requires LowerAll(m.ops, alone, fs, constId).Some? && k < |fs|
    requires ConstsAgree(m, LowerAll(m.ops, alone, fs, constId).value.consts)
    ensures var p := LowerAll(m.ops, alone, fs, constId).value;
            var x := LowerFunction(ContextOf(m.ops, alone, fs[k]), fs[k].body, c);
            && |p.funcs| == |fs| && x.Some? && ConstsAgree(m, x.value.consts)
            && p.funcs[k] == Emitted(fs[k], x.value.code)
    decreases k
  {
    var x := LowerFunction(ContextOf(m.ops, alone, fs[0]), fs[0].body, constId).value;
    var rest := LowerAll(m.ops, alone, fs[1..], x.constId).value;
    ConstsSplit(m, x.consts, rest.consts);
    LoweredCount(m.ops, alone, fs[1..], x.constId);
    if k == 0 {
      c := constId;
    } else {
      c := LoweredAt(m, alone, fs[1..], x.constId, k - 1);
    }
  }

  lemma {:induction false} LoweredCount(ops: Ops, alone: bool, fs: seq<Source>, constId: nat)
    requires LowerAll(ops, alone, fs, constId).Some?
    ensures |LowerAll(ops, alone, fs, constId).value.funcs| == |fs|
  {
    if fs != [] {
      var x := LowerFunction(ContextOf(ops, alone, fs[0]), fs[0].body, constId).value;
      LoweredCount(ops, alone, fs[1..], x.constId);
    }
  }

  /** The constants of a program are numbered in the order in which they are met. */
  lemma {:induction false} ProgramConsts(ops: Ops, alone: bool, fs: seq<Source>, constId: nat)
    requires LowerAll(ops, alone, fs, constId).Some?
    ensures NumberedFrom(LowerAll(ops, alone, fs, constId).value.consts, constId)
  {
    if fs != [] {
      var cx := ContextOf(ops, alone, fs[0]);
      BlockConsts(cx, fs[0].body, 0, constId);
      ProgramConsts(ops, alone, fs[1..], LowerFunction(cx, fs[0].body, constId).value.constId);
    }
  }

  /** No two constants of a program share a name, so one table can hold them all. */
  lemma ProgramConstantsDistinct(ops: Ops, fs: seq<Source>, i: nat, j: nat)
    requires LowerAll(ops, Alone(fs), fs, 0).Some? && i < j < |LowerAll(ops, Alone(fs), fs, 0).value.consts|
    ensures var consts := LowerAll(ops, Alone(fs), fs, 0).value.consts; consts[i].cid != consts[j].cid
  {
    ProgramConsts(ops, Alone(fs), fs, 0);
    NumberedDistinct(LowerAll(ops, Alone(fs), fs, 0).value.consts, 0, i, j);
  }

  /** Every function of the optimised program shows everything its structured body shows, never shows anything
      else, and when it halts the body has ended with the same events and outcome. */
  lemma CompiledProgram(m: Machine, fs: seq<Source>, k: nat, fuel: nat, n: nat, s: Store)
    requires Lawful(m.ops) && k < |fs| && WellFormedBlock(fs[k].body)
    requires LowerAll(m.ops, Alone(fs), fs, 0).Some?
    requires var p := LowerAll(m.ops, Alone(fs), fs, 0).value;
             && ConstsAgree(m, p.consts)
             && O1.OptimizeIr(m.ops, p.funcs).Some? && O1.ModuleKeepsCalls(m.ops, p.funcs)
    ensures var gs := O1.OptimizeIr(m.ops, LowerAll(m.ops, Alone(fs), fs, 0).value.funcs).value;
            var cx := ContextOf(m.ops, Alone(fs), fs[k]);
            && |gs| == |fs| && gs[k].name == fs[k].name && gs[k].params == fs[k].params
            && Shows(m, gs[k].code, s, ObserveFunction(m, cx, fs[k].body, fuel, s))
            && (exists f: nat :: ObserveRun(m, gs[k].code, s, n).t <= ObserveFunction(m, cx, fs[k].body, f, s).t)
            && (Run(m, gs[k].code, Running(0, s, []), n).Halted? ==>
                  exists f: nat :: ObserveFunction(m, cx, fs[k].body, f, s) == ObserveRun(m, gs[k].code, s, n))
  {
    var p := LowerAll(m.ops, Alone(fs), fs, 0).value;
    LabelsUnique(m, Alone(fs), fs);
    O1.OptimizeIrEquivalent(m, p.funcs);
    var c := LoweredAt(m, Alone(fs), fs, 0, k);
    var out := O1.OptimizeIr(m.ops, p.funcs).value[k].code;
    assert Equivalent(m, p.funcs[k].code, out);
    FunctionThrough(m, ContextOf(m.ops, Alone(fs), fs[k]), fs[k].body, c, out, fuel, n, s);
  }

  lemma LabelsUnique(m: Machine, alone: bool, fs: seq<Source>)
    requires LowerAll(m.ops, alone, fs, 0).Some? && ConstsAgree(m, LowerAll(m.ops, alone, fs, 0).value.consts)
    ensures O1.LabelsUniqueInEach(LowerAll(m.ops, alone, fs, 0).value.funcs)
  {
    LoweredCount(m.ops, alone, fs, 0);
    forall i | 0 <= i < |fs| ensures UniqueLabels(LowerAll(m.ops, alone, fs, 0).value.funcs[i].code) {
      var c := LoweredAt(m, alone, fs, 0, i);
      FunctionLabels(ContextOf(m.ops, alone, fs[i]), fs[i].body, c);
    }
  }

  /** What equivalent code keeps of a lowered function. */
  lemma FunctionThrough(m: Machine, cx: Context, b: Block, constId: nat, out: Code, fuel: nat, n: nat, s: Store)
    requires Lawful(m.ops) && cx.ops == m.ops && WellFormedBlock(b)
    requires LowerFunction(cx, b, constId).Some? && ConstsAgree(m, LowerFunction(cx, b, constId).value.consts)
    requires Equivalent(m, LowerFunction(cx, b, constId).value.code, out)
    ensures Shows(m, out, s, ObserveFunction(m, cx, b, fuel, s))
    ensures exists f: nat :: ObserveRun(m, out, s, n).t <= ObserveFunction(m, cx, b, f, s).t
    ensures Run(m, out, Running(0, s, []), n).Halted? ==>
              exists f: nat :: ObserveFunction(m, cx, b, f, s) == ObserveRun(m, out, s, n)
  {
    var code := LowerFunction(cx, b, constId).value.code;
    var k := LoweringForward(m, cx, b, constId, fuel, s);
    assert Shows(m, out, s, ObserveRun(m, code, s, k));
    assert Shows(m, code, s, ObserveRun(m, out, s, n));
    var j: nat :| ObserveRun(m, code, s, j) == ObserveRun(m, out, s, n);
    LoweringBackward(m, cx, b, constId, j, s);
    var f := j + 1;
    assert ObserveRun(m, out, s, n).t <= ObserveFunction(m, cx, b, f, s).t;
  }
}
