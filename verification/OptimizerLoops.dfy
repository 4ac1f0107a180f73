/** The loops of the optimiser, each proved to compute the value that module Optimizer or O1 gives it. */
module OptimizerLoops {
  import opened Prelude
  import opened IR
  import opened PassSimulation
  import opened Simplify
  import opened Optimizer
  import opened O1

  // ----- Constant propagation -----

  method PropagateConstants(ops: Ops, arrays: set<string>, code: Code) returns (r: Option<Code>)
    ensures r == ConstProp(ops, arrays, code)
  {
    var env: Env := map[];
    var out: Code := [];
    ghost var outs: seq<Code> := [];
    for idx := 0 to |code|
      invariant VisitAll(ops, arrays, code[..idx]) == Some(Visits(outs, env))
      invariant out == Flatten(outs)
    {
      var visit := VisitInstr(ops, arrays, code[idx], env);
      assert code[..idx + 1][..idx] == code[..idx];
      if visit == None {
        RaisePropagates(ops, arrays, code, idx + 1);
        return None;
      }
      assert (outs + [visit.value.out])[..idx] == outs;
      out, outs, env := out + visit.value.out, outs + [visit.value.out], visit.value.env;
    }
    assert code[..|code|] == code;
    return Some(out);
  }

  /** An exception in the middle of a list ends the pass over the whole list. */
  lemma {:induction false} RaisePropagates(ops: Ops, arrays: set<string>, code: Code, i: nat)
    requires i <= |code| && VisitAll(ops, arrays, code[..i]) == None
    ensures VisitAll(ops, arrays, code) == None
    decreases |code| - i
  {
    if i == |code| {
      assert code[..i] == code;
    } else {
      assert code[..i + 1][..i] == code[..i];
      RaisePropagates(ops, arrays, code, i + 1);
    }
  }

  method PruneBranches(code: Code) returns (r: Code)
    ensures r == RemoveDeadBranches(code)
  {
    r := [];
    ghost var outs := DeadBranchOuts(code);
    for idx := 0 to |code|
      invariant r == Flatten(outs[..idx])
    {
      FlattenStep(outs, idx);
      r := r + DeadBranchOut(code[idx]);
    }
    assert outs[..|code|] == outs;
  }

  // ----- Reachability -----

  method LabelTable(code: Code) returns (table: map<string, nat>)
    ensures forall l :: l in table <==> LabelIndex(code, l).Some?
    ensures forall l :: l in table ==> LabelIndex(code, l) == Some(table[l])
  {
    table := map[];
    for idx := 0 to |code|
      invariant forall l :: l in table <==> LabelIndex(code[..idx], l).Some?
      invariant forall l :: l in table ==> LabelIndex(code[..idx], l) == Some(table[l])
    {
      assert code[..idx + 1][..idx] == code[..idx];
      if code[idx].Label? {
        table := table[code[idx].name := idx];
      }
    }
    assert code[..|code|] == code;
  }

  /** A set that holds the start and is closed under control flow holds everything reachable. */
  lemma {:induction false} ClosedHoldsReachable(code: Code, visited: set<nat>, p: seq<nat>, k: nat)
    requires IsPath(code, p) && p[0] == 0 && k < |p|
    requires 0 in visited
    requires forall i, j :: i in visited && i < |code| && j in Follow(code, i) && j < |code| ==> j in visited
    ensures p[k] in visited
    decreases k
  {
    if k > 0 {
      ClosedHoldsReachable(code, visited, p, k - 1);
      assert p[k - 1 + 1] in Follow(code, p[k - 1]);
    }
  }

  ghost function Unvisited(code: Code, visited: set<nat>): set<nat> {
    set i: nat | i < |code| && i !in visited
  }

  /** Everything visited or waiting is reachable, and what follows a visited instruction is visited or waiting. */
  ghost predicate Exploring(code: Code, visited: set<nat>, worklist: seq<nat>) {
    && (forall i :: i in visited ==> i < |code| && Reachable(code, i))
    && (forall i :: i in worklist && i < |code| ==> Reachable(code, i))
    && (forall i, j :: i in visited && j in Follow(code, i) && j < |code| ==> j in visited || j in worklist)
    && (0 in visited || 0 in worklist)
  }

  lemma ExploreNext(code: Code, visited: set<nat>, rest: seq<nat>, idx: nat, next: seq<nat>)
    requires Exploring(code, visited, rest + [idx]) && idx < |code|
    requires forall j :: j in next <==> j in rest || j in Follow(code, idx)
    ensures Exploring(code, visited + {idx}, next)
  {
    assert idx in rest + [idx];
    forall j | j in next && j < |code| ensures Reachable(code, j) {
      if j in rest {
        assert j in rest + [idx];
      } else {
        ReachableStep(code, idx, j);
      }
    }
  }

  lemma ExploreSkip(code: Code, visited: set<nat>, rest: seq<nat>, idx: nat)
    requires Exploring(code, visited, rest + [idx]) && code != []
    requires idx >= |code| || idx in visited
    ensures Exploring(code, visited, rest)
  {
    forall j | j in rest && j < |code| ensures Reachable(code, j) {
      assert j in rest + [idx];
    }
  }

  lemma ExploredAll(code: Code, visited: set<nat>)
    requires Exploring(code, visited, [])
    ensures forall i: nat :: i in visited <==> i < |code| && Reachable(code, i)
  {
    forall i: nat | i < |code| && Reachable(code, i) ensures i in visited {
      var p :| IsPath(code, p) && p[0] == 0 && p[|p| - 1] == i;
      ClosedHoldsReachable(code, visited, p, |p| - 1);
    }
  }

  method PushFollowers(code: Code, labels: map<string, nat>, idx: nat, rest: seq<nat>) returns (next: seq<nat>)
    requires idx < |code|
    requires forall l :: l in labels <==> LabelIndex(code, l).Some?
    requires forall l :: l in labels ==> LabelIndex(code, l) == Some(labels[l])
    ensures forall j :: j in next <==> j in rest || j in Follow(code, idx)
  {
    match code[idx]
    case Goto(l) =>
      next := rest + if l in labels then [labels[l]] else [];
    case IfGoto(_, l) =>
      next := rest + (if l in labels then [labels[l]] else []) + [idx + 1];
    case ExitExpr(_) =>
      next := rest;
    case ReturnExpr(_) =>
      next := rest;
    case _ =>
      next := rest + [idx + 1];
  }

  method VisitReachable(code: Code) returns (visited: set<nat>)
    requires code != []
    ensures forall i: nat :: i in visited <==> i < |code| && Reachable(code, i)
  {
    var labels := LabelTable(code);
    visited := {};
    var worklist: seq<nat> := [0];
    ReachableStart(code);
    while worklist != []
      invariant Exploring(code, visited, worklist)
      decreases Unvisited(code, visited), |worklist|
    {
      var idx := worklist[|worklist| - 1];
      var rest := worklist[..|worklist| - 1];
      assert worklist == rest + [idx];
      if idx >= |code| || idx in visited {
        ExploreSkip(code, visited, rest, idx);
        worklist := rest;
      } else {
        worklist := PushFollowers(code, labels, idx, rest);
        ExploreNext(code, visited, rest, idx, worklist);
        assert idx in Unvisited(code, visited);
        visited := visited + {idx};
      }
    }
    ExploredAll(code, visited);
  }

  method PruneUnreachable(code: Code) returns (r: Code)
    ensures r == RemoveUnreachable(code)
  {
    r := [];
    if code == [] {
      return;
    }
    var visited := VisitReachable(code);
    ghost var outs := Kept(code, (i: nat) => Reachable(code, i));
    for idx := 0 to |code|
      invariant r == Flatten(outs[..idx])
    {
      FlattenStep(outs, idx);
      if idx in visited {
        r := r + [code[idx]];
      }
    }
    assert outs[..|code|] == outs;
  }

  // ----- Liveness -----

  ghost function OutEquation(code: Code, liveIn: seq<set<string>>, i: nat): set<string>
    requires i < |code| == |liveIn|
  {
    set j, x | j in Follow(code, i) && j < |code| && x in liveIn[j] :: x
  }

  ghost function InEquation(code: Code, liveIn: seq<set<string>>, i: nat): set<string>
    requires i < |code| == |liveIn|
  {
    Uses(code[i]) + (OutEquation(code, liveIn, i) - Defs(code[i]))
  }

  /** Only variables that are live. */
  ghost predicate AllLive(code: Code, liveIn: seq<set<string>>, liveOut: seq<set<string>>)
    requires |liveIn| == |liveOut| == |code|
  {
    && (forall i, x :: 0 <= i < |code| && x in liveIn[i] ==> LiveIn(code, i, x))
    && (forall i, x :: 0 <= i < |code| && x in liveOut[i] ==> LiveOut(code, i, x))
  }

  /** Never more than the equations ask for. */
  ghost predicate Undershoots(code: Code, liveIn: seq<set<string>>, liveOut: seq<set<string>>)
    requires |liveIn| == |liveOut| == |code|
  {
    && (forall i :: 0 <= i < |code| ==> liveIn[i] <= InEquation(code, liveIn, i))
    && (forall i :: 0 <= i < |code| ==> liveOut[i] <= OutEquation(code, liveIn, i))
  }

  ghost predicate Below(code: Code, liveIn: seq<set<string>>, liveOut: seq<set<string>>) {
    && |liveIn| == |liveOut| == |code|
    && AllLive(code, liveIn, liveOut)
    && Undershoots(code, liveIn, liveOut)
  }

  ghost predicate SolvedFrom(code: Code, liveIn: seq<set<string>>, liveOut: seq<set<string>>, n: nat)
    requires |liveIn| == |liveOut| == |code|
  {
    forall i :: n <= i < |code| ==>
      liveIn[i] == InEquation(code, liveIn, i) && liveOut[i] == OutEquation(code, liveIn, i)
  }

  /** Any solution of the equations holds every live variable. */
  lemma {:induction false} SolutionHoldsLive(
    code: Code, liveIn: seq<set<string>>, liveOut: seq<set<string>>, p: seq<nat>, x: string)
    requires |liveIn| == |liveOut| == |code| && SolvedFrom(code, liveIn, liveOut, 0)
    requires LivePath(code, p, x)
    ensures x in liveIn[p[0]]
    decreases |p|
  {
    if |p| > 1 {
      var q := p[1..];
      assert p[0 + 1] in Follow(code, p[0]);
      forall k | 0 <= k < |q| - 1 ensures q[k + 1] in Follow(code, q[k]) && x !in Defs(code[q[k]]) {
        assert q[k] == p[k + 1] && q[k + 1] == p[k + 1 + 1];
      }
      SolutionHoldsLive(code, liveIn, liveOut, q, x);
      assert x in OutEquation(code, liveIn, p[0]);
    }
  }

  /** The least solution: below everything live, and a solution, it is exactly liveness. */
  lemma LeastSolution(code: Code, liveIn: seq<set<string>>, liveOut: seq<set<string>>)
    requires Below(code, liveIn, liveOut) && SolvedFrom(code, liveIn, liveOut, 0)
    ensures forall i, x :: 0 <= i < |code| ==> (x in liveIn[i] <==> LiveIn(code, i, x))
    ensures forall i, x :: 0 <= i < |code| ==> (x in liveOut[i] <==> LiveOut(code, i, x))
  {
    forall i, x | 0 <= i < |code| && LiveIn(code, i, x) ensures x in liveIn[i] {
      var p :| LivePath(code, p, x) && p[0] == i;
      SolutionHoldsLive(code, liveIn, liveOut, p, x);
    }
    forall i, x | 0 <= i < |code| && LiveOut(code, i, x) ensures x in liveOut[i] {
      var j :| j in Follow(code, i) && LiveIn(code, j, x);
      var p :| LivePath(code, p, x) && p[0] == j;
      assert x in OutEquation(code, liveIn, i);
    }
  }

  lemma EquationsMonotone(code: Code, less: seq<set<string>>, more: seq<set<string>>, i: nat)
    requires i < |code| == |less| == |more|
    requires forall k :: 0 <= k < |code| ==> less[k] <= more[k]
    ensures OutEquation(code, less, i) <= OutEquation(code, more, i)
    ensures InEquation(code, less, i) <= InEquation(code, more, i)
  {
  }

  lemma EquationsLive(code: Code, liveIn: seq<set<string>>, liveOut: seq<set<string>>, i: nat, x: string)
    requires i < |code| == |liveIn| == |liveOut| && AllLive(code, liveIn, liveOut)
    ensures x in OutEquation(code, liveIn, i) ==> LiveOut(code, i, x)
    ensures x in InEquation(code, liveIn, i) ==> LiveIn(code, i, x)
  {
    LivenessEquation(code, i, x);
  }

  /** Replacing one entry by what its equations ask for stays below, and only adds variables. */
  lemma UpdateBelow(code: Code, liveIn: seq<set<string>>, liveOut: seq<set<string>>, idx: nat)
    requires Below(code, liveIn, liveOut) && idx < |code|
    ensures liveIn[idx] <= InEquation(code, liveIn, idx) && liveOut[idx] <= OutEquation(code, liveIn, idx)
    ensures Below(code, liveIn[idx := InEquation(code, liveIn, idx)], liveOut[idx := OutEquation(code, liveIn, idx)])
  {
    var ins := liveIn[idx := InEquation(code, liveIn, idx)];
    var outs := liveOut[idx := OutEquation(code, liveIn, idx)];
    assert AllLive(code, ins, outs) by {
      forall x ensures x in outs[idx] ==> LiveOut(code, idx, x) {
        EquationsLive(code, liveIn, liveOut, idx, x);
      }
      forall x ensures x in ins[idx] ==> LiveIn(code, idx, x) {
        EquationsLive(code, liveIn, liveOut, idx, x);
      }
    }
    forall i | 0 <= i < |code|
      ensures ins[i] <= InEquation(code, ins, i) && outs[i] <= OutEquation(code, ins, i)
    {
      EquationsMonotone(code, liveIn, ins, i);
    }
  }

  ghost function AllUses(code: Code): set<string> {
    set i, x | 0 <= i < |code| && x in Uses(code[i]) :: x
  }

  /** Entries that could still be added; each change of the loop removes one. */
  ghost function Missing(code: Code, live: seq<set<string>>): set<(nat, string)>
    requires |live| == |code|
  {
    set i: nat, x | i < |code| && x in AllUses(code) && x !in live[i] :: (i, x)
  }

  lemma LiveIsUsed(code: Code, i: nat, x: string)
    requires LiveIn(code, i, x)
    ensures x in AllUses(code)
  {
    var p :| LivePath(code, p, x) && p[0] == i;
    var last := p[|p| - 1];
    assert x in Uses(code[last]);
  }

  lemma MissingShrinks(code: Code, old0: seq<set<string>>, new0: seq<set<string>>)
    requires |old0| == |new0| == |code|
    requires forall i :: 0 <= i < |code| ==> old0[i] <= new0[i] <= AllUses(code)
    ensures Missing(code, new0) <= Missing(code, old0)
    ensures new0 != old0 ==> Missing(code, new0) < Missing(code, old0)
  {
    if new0 != old0 {
      var i: nat :| i < |code| && old0[i] != new0[i];
      var x :| x in new0[i] && x !in old0[i];
      assert (i, x) in Missing(code, old0) && (i, x) !in Missing(code, new0);
    }
  }

  lemma BelowIsUsed(code: Code, liveIn: seq<set<string>>, liveOut: seq<set<string>>)
    requires Below(code, liveIn, liveOut)
    ensures forall i :: 0 <= i < |code| ==> liveIn[i] <= AllUses(code) && liveOut[i] <= AllUses(code)
  {
    forall i, x | 0 <= i < |code| && x in liveIn[i] ensures x in AllUses(code) {
      LiveIsUsed(code, i, x);
    }
    forall i, x | 0 <= i < |code| && x in liveOut[i] ensures x in AllUses(code) {
      var j :| j in Follow(code, i) && LiveIn(code, j, x);
      LiveIsUsed(code, j, x);
    }
  }

  method UnionOver(succs: set<nat>, live: seq<set<string>>) returns (u: set<string>)
    ensures u == set j, x | j in succs && j < |live| && x in live[j] :: x
  {
    var todo := succs;
    u := {};
    while todo != {}
      invariant todo <= succs
      invariant u == set j, x | j in succs - todo && j < |live| && x in live[j] :: x
    {
      var j :| j in todo;
      todo := todo - {j};
      if j < |live| {
        u := u + live[j];
      }
    }
  }

  /** What a sweep has achieved once the entries from `n` on are done; `grown` is an entry it has changed. */
  ghost predicate Swept(code: Code, in0: seq<set<string>>, out0: seq<set<string>>,
                        liveIn: seq<set<string>>, liveOut: seq<set<string>>, changed: bool, grown: nat, n: nat)
    requires |in0| == |out0| == |code|
  {
    && n <= |code| == |liveIn| == |liveOut|
    && (forall i :: 0 <= i < |code| ==> in0[i] <= liveIn[i] && out0[i] <= liveOut[i])
    && liveIn[..n] == in0[..n] && liveOut[..n] == out0[..n]
    && if changed then n <= grown < |code| && (liveIn[grown] != in0[grown] || liveOut[grown] != out0[grown])
       else liveIn == in0 && liveOut == out0 && SolvedFrom(code, liveIn, liveOut, n)
  }

  /** The sweep changes slot `idx`. */
  lemma SweptGrows(code: Code, in0: seq<set<string>>, out0: seq<set<string>>,
                   liveIn: seq<set<string>>, liveOut: seq<set<string>>, changed: bool, grown: nat, idx: nat)
    requires |in0| == |out0| == |code| && idx < |code|
    requires Swept(code, in0, out0, liveIn, liveOut, changed, grown, idx + 1)
    requires liveIn[idx] <= InEquation(code, liveIn, idx) && liveOut[idx] <= OutEquation(code, liveIn, idx)
    requires OutEquation(code, liveIn, idx) != liveOut[idx] || InEquation(code, liveIn, idx) != liveIn[idx]
    ensures Swept(code, in0, out0, liveIn[idx := InEquation(code, liveIn, idx)],
                  liveOut[idx := OutEquation(code, liveIn, idx)], true, idx, idx)
  {
    PrefixLess(liveIn, in0, idx);
    PrefixLess(liveOut, out0, idx);
  }

  /** The sweep finds slot `idx` as the equations say. */
  lemma SweptSame(code: Code, in0: seq<set<string>>, out0: seq<set<string>>,
                  liveIn: seq<set<string>>, liveOut: seq<set<string>>, changed: bool, grown: nat, idx: nat)
    requires |in0| == |out0| == |code| && idx < |code|
    requires Swept(code, in0, out0, liveIn, liveOut, changed, grown, idx + 1)
    requires OutEquation(code, liveIn, idx) == liveOut[idx] && InEquation(code, liveIn, idx) == liveIn[idx]
    ensures Swept(code, in0, out0, liveIn, liveOut, changed, grown, idx)
  {
    PrefixLess(liveIn, in0, idx);
    PrefixLess(liveOut, out0, idx);
  }

  lemma PrefixLess(a: seq<set<string>>, b: seq<set<string>>, idx: nat)
    requires |a| == |b| && idx < |a| && a[..idx + 1] == b[..idx + 1]
    ensures a[idx] == b[idx] && a[..idx] == b[..idx]
  {
    assert a[idx] == a[..idx + 1][idx] == b[idx];
    assert a[..idx] == a[..idx + 1][..idx] == b[..idx];
  }

  /** One backward sweep over the instructions. */
  method Sweep(code: Code, in0: seq<set<string>>, out0: seq<set<string>>)
    returns (liveIn: seq<set<string>>, liveOut: seq<set<string>>, changed: bool)
    requires Below(code, in0, out0)
    ensures Below(code, liveIn, liveOut)
    ensures forall i :: 0 <= i < |code| ==> in0[i] <= liveIn[i] && out0[i] <= liveOut[i]
    ensures changed <==> liveIn != in0 || liveOut != out0
    ensures !changed ==> SolvedFrom(code, liveIn, liveOut, 0)
  {
    liveIn, liveOut, changed := in0, out0, false;
    ghost var grown := 0;
    for idx := |code| downto 0
      invariant Below(code, liveIn, liveOut)
      invariant Swept(code, in0, out0, liveIn, liveOut, changed, grown, idx)
    {
      UpdateBelow(code, liveIn, liveOut, idx);
      var nextOut := UnionOver(Follow(code, idx), liveIn);
      assert nextOut == OutEquation(code, liveIn, idx);
      var nextIn := Uses(code[idx]) + (nextOut - Defs(code[idx]));
      if nextOut != liveOut[idx] || nextIn != liveIn[idx] {
        SweptGrows(code, in0, out0, liveIn, liveOut, changed, grown, idx);
        liveIn, liveOut := liveIn[idx := nextIn], liveOut[idx := nextOut];
        changed, grown := true, idx;
      } else {
        SweptSame(code, in0, out0, liveIn, liveOut, changed, grown, idx);
      }
    }
  }

  method Liveness(code: Code) returns (liveIn: seq<set<string>>, liveOut: seq<set<string>>)
    ensures |liveIn| == |liveOut| == |code|
    ensures forall i, x :: 0 <= i < |code| ==> (x in liveIn[i] <==> LiveIn(code, i, x))
    ensures forall i, x :: 0 <= i < |code| ==> (x in liveOut[i] <==> LiveOut(code, i, x))
  {
    liveIn, liveOut := seq(|code|, _ => {}), seq(|code|, _ => {});
    var changed := true;
    while changed
      invariant Below(code, liveIn, liveOut)
      invariant !changed ==> SolvedFrom(code, liveIn, liveOut, 0)
      decreases Missing(code, liveIn), Missing(code, liveOut), changed
    {
      ghost var in0, out0 := liveIn, liveOut;
      liveIn, liveOut, changed := Sweep(code, liveIn, liveOut);
      BelowIsUsed(code, liveIn, liveOut);
      MissingShrinks(code, in0, liveIn);
      MissingShrinks(code, out0, liveOut);
    }
    LeastSolution(code, liveIn, liveOut);
  }

  method PruneDeadStores(code: Code) returns (r: Code)
    ensures r == RemoveDeadStores(code)
  {
    var liveIn, liveOut := Liveness(code);
    r := [];
    ghost var outs := Kept(code, (i: nat) => i < |code| && !DeadStore(code, i));
    for idx := 0 to |code|
      invariant r == Flatten(outs[..idx])
    {
      FlattenStep(outs, idx);
      var ins := code[idx];
      if !(ins.Assign? && ins.target.VarTarget? && ins.target.name !in liveOut[idx] && SideEffectFree(ins.expr)) {
        r := r + [ins];
      }
    }
    assert outs[..|code|] == outs;
  }

  // ----- Cleanup -----

  method SkipJumps(code: Code) returns (r: Code)
    ensures r == DropJumps(code)
  {
    r := [];
    ghost var outs := Kept(code, (i: nat) => !JumpToNext(code, i));
    for idx := 0 to |code|
      invariant r == Flatten(outs[..idx])
    {
      FlattenStep(outs, idx);
      if !JumpToNext(code, idx) {
        r := r + [code[idx]];
      }
    }
    assert outs[..|code|] == outs;
  }

  method SkipLabels(code: Code) returns (r: Code)
    ensures r == DropLabels(code)
  {
    var used: set<string> := {};
    for idx := 0 to |code|
      invariant forall l :: l in used <==> exists k :: 0 <= k < idx && JumpsTo(code[k], l)
    {
      if code[idx].Goto? || code[idx].IfGoto? {
        assert JumpsTo(code[idx], code[idx].dest);
        used := used + {code[idx].dest};
      }
    }
    r := [];
    ghost var outs := Kept(code, (i: nat) => !UnusedLabel(code, i));
    for idx := 0 to |code|
      invariant r == Flatten(outs[..idx])
    {
      FlattenStep(outs, idx);
      if !(code[idx].Label? && code[idx].name !in used) {
        r := r + [code[idx]];
      }
    }
    assert outs[..|code|] == outs;
  }

  /** Rounds of cleanup while a round drops something. */
  method CleanupControlFlow(code: Code) returns (r: Code)
    ensures r == Cleanup(code)
  {
    r := code;
    while true
      invariant Cleanup(r) == Cleanup(code)
      decreases CodeWeight(r)
    {
      CleanupRoundShrinks(r);
      var next := SkipJumps(r);
      next := SkipLabels(next);
      if next == r {
        return;
      }
      r := next;
    }
  }

  // ----- The optimiser -----

  method OptimizeFunction(ops: Ops, f: Func) returns (r: Option<Func>)
    ensures r == match OptimizeOnce(ops, ArrayNames(f.symbols), f.code)
                 case Some(code) => Some(f.(code := code))
                 case None => None
  {
    var propagated := PropagateConstants(ops, ArrayNames(f.symbols), f.code);
    if propagated == None {
      return None;
    }
    var code := PruneBranches(propagated.value);
    code := PruneUnreachable(code);
    code := PruneDeadStores(code);
    code := CleanupControlFlow(code);
    return Some(f.(code := code));
  }

  method OptimizeRound(ops: Ops, fs: seq<Func>) returns (r: Option<seq<Func>>)
    ensures r == OnceEach(ops, fs)
  {
    if fs == [] {
      return Some([]);
    }
    var first := OptimizeFunction(ops, fs[0]);
    if first == None {
      return None;
    }
    var rest := OptimizeRound(ops, fs[1..]);
    if rest == None {
      return None;
    }
    return Some([first.value] + rest.value);
  }

  /** The whole optimiser with its statistics. */
  method Optimize(ops: Ops, fs: seq<Func>) returns (r: Option<seq<Func>>, before: nat, after: nat)
    ensures r == OptimizeIr(ops, fs)
    ensures r.Some? ==> before == InstructionCount(fs) && after == InstructionCount(r.value) && after <= before
  {
    before, after := InstructionCount(fs), 0;
    var current := fs;
    while true
      invariant OptimizeIr(ops, current) == OptimizeIr(ops, fs)
      invariant InstructionCount(current) <= before
      decreases ModuleWeight(current)
    {
      var next := OptimizeRound(ops, current);
      if next == None {
        return None, before, after;
      }
      if next.value == current {
        return Some(current), before, InstructionCount(current);
      }
      current := next.value;
    }
  }
}
