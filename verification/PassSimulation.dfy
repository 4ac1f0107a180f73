/**
  Every optimiser pass walks the instruction list once and puts out, for each instruction, nothing or one
  instruction.  This module gives the one simulation argument that all passes share.
 */
module PassSimulation {
  import opened Prelude
  import opened IR

  function Flatten(outs: seq<Code>): Code {
    if outs == [] then [] else Flatten(outs[..|outs| - 1]) + outs[|outs| - 1]
  }

  /** Where the output of the instructions from `i` on begins. */
  function At(outs: seq<Code>, i: nat): nat
    requires i <= |outs|
  {
    |Flatten(outs[..i])|
  }

  /** At most one instruction per input instruction, and no invented labels. */
  ghost predicate Local(code: Code, outs: seq<Code>) {
    && |outs| == |code|
    && forall i :: 0 <= i < |outs| ==> |outs[i]| <= 1 && (|outs[i]| == 1 && outs[i][0].Label? ==> outs[i][0] == code[i])
  }

  lemma FlattenStep(outs: seq<Code>, i: nat)
    requires i < |outs|
    ensures Flatten(outs[..i + 1]) == Flatten(outs[..i]) + outs[i]
    ensures At(outs, i + 1) == At(outs, i) + |outs[i]|
  {
    assert outs[..i + 1][..i] == outs[..i];
  }

  lemma {:induction false} FlattenPrefix(outs: seq<Code>, i: nat)
    requires i <= |outs|
    ensures Flatten(outs[..i]) <= Flatten(outs)
    decreases |outs| - i
  {
    if i == |outs| {
      assert outs[..i] == outs;
    } else {
      FlattenStep(outs, i);
      FlattenPrefix(outs, i + 1);
    }
  }

  lemma OutputAt(outs: seq<Code>, i: nat)
    requires i < |outs| && |outs[i]| == 1
    ensures At(outs, i) < |Flatten(outs)| && Flatten(outs)[At(outs, i)] == outs[i][0]
  {
    FlattenStep(outs, i);
    FlattenPrefix(outs, i + 1);
  }

  lemma {:induction false} AtMonotone(outs: seq<Code>, i: nat, j: nat)
    requires i <= j <= |outs|
    ensures At(outs, i) <= At(outs, j)
    decreases j - i
  {
    if i < j {
      FlattenStep(outs, i);
      AtMonotone(outs, i + 1, j);
    }
  }

  /** Every output instruction was put out for some input instruction. */
  lemma {:induction false} Origin(outs: seq<Code>, j: nat) returns (i: nat)
    requires forall k :: 0 <= k < |outs| ==> |outs[k]| <= 1
    requires j < |Flatten(outs)|
    ensures i < |outs| && |outs[i]| == 1 && outs[i][0] == Flatten(outs)[j] && At(outs, i) == j
    decreases |outs|
  {
    var n := |outs| - 1;
    if j < |Flatten(outs[..n])| {
      i := Origin(outs[..n], j);
      assert outs[..n][..i] == outs[..i];
    } else {
      i := n;
    }
  }

  lemma LabelMoves(code: Code, outs: seq<Code>, l: string)
    requires Local(code, outs)
    ensures LabelIndex(code, l) == None ==> LabelIndex(Flatten(outs), l) == None
    ensures LabelIndex(code, l).Some? && outs[LabelIndex(code, l).value] == [Label(l)]
            ==> LabelIndex(Flatten(outs), l) == Some(At(outs, LabelIndex(code, l).value))
  {
    var r := LabelIndex(Flatten(outs), l);
    if r.Some? {
      var i := Origin(outs, r.value);
      assert code[i] == Label(l);
      var k := LabelIndex(code, l).value;
      AtMonotone(outs, i, k);
      if outs[k] == [Label(l)] {
        OutputAt(outs, k);
      }
    } else if LabelIndex(code, l).Some? && outs[LabelIndex(code, l).value] == [Label(l)] {
      OutputAt(outs, LabelIndex(code, l).value);
      assert false;
    }
  }

  /** Dropping and rewriting instructions keeps labels unique. */
  lemma UniqueLabelsKept(code: Code, outs: seq<Code>)
    requires Local(code, outs) && UniqueLabels(code)
    ensures UniqueLabels(Flatten(outs))
  {
    var out := Flatten(outs);
    forall i: nat, j: nat | i < j < |out| && SameLabel(out, i, j) ensures false {
      var a := Origin(outs, i);
      var b := Origin(outs, j);
      if b <= a {
        AtMonotone(outs, b, a);
      }
      assert SameLabel(code, a, b);
    }
  }

  // ----- Simulation -----

  /** Relates the frames of the two programs when the original is about to run an instruction. */
  type Rel = (nat, Store, Store) -> bool

  /** One step of the original at `i` is matched by the instruction put out for it, or by doing nothing when none
      was and control just moves on. */
  ghost predicate Matches(m: Machine, code: Code, outs: seq<Code>, rel: Rel, i: nat, a: Store, b: Store, t: Trace)
    requires |outs| == |code| && i < |code|
  {
    var ea := Exec(m, code[i], a, t);
    if |outs[i]| != 1 then
      var c := Land(code, i, ea);
      c.Running? && c.pc == i + 1 && c.t == t && rel(i + 1, c.s, b)
    else
      var eb := Exec(m, outs[i][0], b, t);
      match ea
      case Halt(_, _) => eb == ea
      case Next(a', t') => eb.Next? && eb.t == t' && rel(i + 1, a', eb.s)
      case Jump(l, a', t') =>
        && eb.Jump? && eb.dest == l && eb.t == t'
        && match LabelIndex(code, l)
           case None => true
           case Some(k) => outs[k] == [Label(l)] && rel(k, a', eb.s)
  }

  ghost predicate Simulates(m: Machine, code: Code, outs: seq<Code>, rel: Rel) {
    && Local(code, outs)
    && (forall s :: rel(0, s, s))
    && (forall i: nat, a, b, t :: i < |code| && rel(i, a, b) ==> Matches(m, code, outs, rel, i, a, b, t))
  }

  /** The two successor configurations are related again. */
  ghost predicate Related(code: Code, outs: seq<Code>, rel: Rel, c: Config, d: Config)
    requires |outs| == |code|
  {
    match c
    case Halted(_, _) => d == c
    case Running(i, a, t) => d.Running? && i <= |code| && d.pc == At(outs, i) && d.t == t && rel(i, a, d.s)
  }

  lemma MatchedStep(m: Machine, code: Code, outs: seq<Code>, rel: Rel, c: Config, d: Config)
    requires Simulates(m, code, outs, rel) && Related(code, outs, rel, c, d)
    ensures c.Running? && c.pc < |code| && |outs[c.pc]| != 1 ==>
              var c' := Step(m, code, c);
              c'.Running? && c'.pc == c.pc + 1 && Related(code, outs, rel, c', d)
    ensures !(c.Running? && c.pc < |code| && |outs[c.pc]| != 1) ==>
              Related(code, outs, rel, Step(m, code, c), Step(m, Flatten(outs), d))
  {
    if c.Running? {
      if c.pc == |code| {
        assert outs[..c.pc] == outs;
      } else {
        var i := c.pc;
        assert Matches(m, code, outs, rel, i, c.s, d.s, c.t);
        FlattenStep(outs, i);
        if |outs[i]| == 1 {
          OutputAt(outs, i);
          var ea := Exec(m, code[i], c.s, c.t);
          if ea.Jump? {
            LabelMoves(code, outs, ea.dest);
          }
        }
      }
    }
  }

  lemma {:induction false} Forward(m: Machine, code: Code, outs: seq<Code>, rel: Rel, c: Config, d: Config, n: nat)
    returns (k: nat)
    requires Simulates(m, code, outs, rel) && Related(code, outs, rel, c, d)
    ensures Observe(Run(m, code, c, n)) == Observe(Run(m, Flatten(outs), d, k))
    decreases n
  {
    if n == 0 {
      k := 0;
    } else {
      MatchedStep(m, code, outs, rel, c, d);
      var c' := Step(m, code, c);
      if c.Running? && c.pc < |code| && |outs[c.pc]| != 1 {
        k := Forward(m, code, outs, rel, c', d, n - 1);
      } else {
        k := Forward(m, code, outs, rel, c', Step(m, Flatten(outs), d), n - 1);
        k := k + 1;
      }
    }
  }

  lemma {:induction false} Backward(m: Machine, code: Code, outs: seq<Code>, rel: Rel, c: Config, d: Config, k: nat)
    returns (n: nat)
    requires Simulates(m, code, outs, rel) && Related(code, outs, rel, c, d)
    ensures Observe(Run(m, code, c, n)) == Observe(Run(m, Flatten(outs), d, k))
    decreases k, if c.Running? then |code| - c.pc else 0
  {
    if k == 0 {
      n := 0;
    } else {
      MatchedStep(m, code, outs, rel, c, d);
      var c' := Step(m, code, c);
      if c.Running? && c.pc < |code| && |outs[c.pc]| != 1 {
        n := Backward(m, code, outs, rel, c', d, k);
      } else {
        n := Backward(m, code, outs, rel, c', Step(m, Flatten(outs), d), k - 1);
      }
      n := n + 1;
    }
  }

  /** A pass whose every instruction is matched changes nothing an observer can see. */
  lemma SimulationEquivalent(m: Machine, code: Code, outs: seq<Code>, rel: Rel)
    requires Simulates(m, code, outs, rel)
    ensures Equivalent(m, code, Flatten(outs))
  {
    var out := Flatten(outs);
    forall s: Store, n: nat ensures Shows(m, out, s, ObserveRun(m, code, s, n)) {
      var k := Forward(m, code, outs, rel, Running(0, s, []), Running(0, s, []), n);
      assert ObserveRun(m, out, s, k) == ObserveRun(m, code, s, n);
    }
    forall s: Store, k: nat ensures Shows(m, code, s, ObserveRun(m, out, s, k)) {
      var n := Backward(m, code, outs, rel, Running(0, s, []), Running(0, s, []), k);
      assert ObserveRun(m, code, s, n) == ObserveRun(m, out, s, k);
    }
  }
}
