/** What the parser accepts: only printings of the tree it returns, up to redundant parentheses. */
module ParserConverse {
  import opened Parser

  /** Expressions with the parentheses they are written with. */
  datatype Tree =
    | TLit(value: nat)
    | TVar(name: string)
    | TIndex(name: string, index: Tree)
    | TCall(name: string, args: seq<Tree>)
    | TUnary(op: string, operand: Tree)
    | TBinary(op: string, lhs: Tree, rhs: Tree)
    | Paren(inner: Tree)

  /** The expression without its parentheses. */
  function Strip(t: Tree): Expr {
    match t
    case TLit(v) => Lit(v)
    case TVar(x) => Var(x)
    case TIndex(x, i) => Index(x, Strip(i))
    case TCall(f, args) => Call(f, StripAll(args))
    case TUnary(op, x) => Unary(op, Strip(x))
    case TBinary(op, l, r) => Binary(op, Strip(l), Strip(r))
    case Paren(x) => Strip(x)
  }

  function StripAll(ts: seq<Tree>): (es: seq<Expr>)
    ensures |es| == |ts|
  {
    if ts == [] then [] else [Strip(ts[0])] + StripAll(ts[1..])
  }

  /** The tokens of the expression as written. */
  function Show(t: Tree): seq<Token> {
    match t
    case TLit(v) => [INT(v)]
    case TVar(x) => [IDENT(x)]
    case TIndex(x, i) => [IDENT(x), SYMBOL("[")] + Show(i) + [SYMBOL("]")]
    case TCall(f, args) => [IDENT(f), SYMBOL("(")] + ShowAll(args) + [SYMBOL(")")]
    case TUnary(op, x) => [SYMBOL(op)] + Show(x)
    case TBinary(op, l, r) => Show(l) + [SYMBOL(op)] + Show(r)
    case Paren(x) => [SYMBOL("(")] + Show(x) + [SYMBOL(")")]
  }

  function ShowAll(ts: seq<Tree>): seq<Token> {
    if ts == [] then []
    else if |ts| == 1 then Show(ts[0])
    else Show(ts[0]) + [SYMBOL(",")] + ShowAll(ts[1..])
  }

  function TreeLevel(t: Tree): nat {
    if t.TBinary? then OpLevel(t.op) else LEVELS
  }

  /** Parentheses stand wherever the levels ask for them, and operators associate to the left. */
  predicate Fits(t: Tree) {
    match t
    case TLit(_) => true
    case TVar(_) => true
    case TIndex(_, i) => Fits(i)
    case TCall(_, args) => AllFit(args)
    case TUnary(op, x) => IsUnary(op) && TreeLevel(x) == LEVELS && Fits(x)
    case TBinary(op, l, r) =>
      OpLevel(op) < LEVELS && TreeLevel(l) >= OpLevel(op) && TreeLevel(r) > OpLevel(op) && Fits(l) && Fits(r)
    case Paren(x) => Fits(x)
  }

  predicate AllFit(ts: seq<Tree>) {
    ts != [] ==> Fits(ts[0]) && AllFit(ts[1..])
  }

  /** The result `r` of parsing at `pos` is `t` as written there, at `level` or tighter. */
  ghost predicate Written(ts: seq<Token>, pos: nat, t: Tree, level: nat, r: Result) {
    && r.Ok? && Fits(t) && TreeLevel(t) >= level && r.expr == Strip(t)
    && Starts(ts, pos, Show(t)) && r.pos == pos + |Show(t)|
  }

  ghost predicate WrittenAll(ts: seq<Token>, pos: nat, trees: seq<Tree>, r: Args) {
    && r.ArgsOk? && trees != [] && AllFit(trees) && r.args == StripAll(trees)
    && Starts(ts, pos, ShowAll(trees)) && r.pos == pos + |ShowAll(trees)|
  }

  lemma StartsJoin(ts: seq<Token>, pos: nat, a: seq<Token>, b: seq<Token>)
    requires Starts(ts, pos, a) && Starts(ts, pos + |a|, b)
    ensures Starts(ts, pos, a + b)
  {
    forall i | 0 <= i < |a + b| ensures ts[pos + i] == (a + b)[i] {
      assert i >= |a| ==> ts[pos + |a| + (i - |a|)] == b[i - |a|];
    }
  }

  lemma StartsOne(ts: seq<Token>, pos: nat, t: Token)
    requires pos < |ts| && ts[pos] == t
    ensures Starts(ts, pos, [t])
  {
  }

  /** Something between two tokens. */
  lemma StartsBetween(ts: seq<Token>, pos: nat, open: Token, inner: seq<Token>, close: Token)
    requires pos < |ts| && ts[pos] == open && Starts(ts, pos + 1, inner)
    requires pos + 1 + |inner| < |ts| && ts[pos + 1 + |inner|] == close
    ensures Starts(ts, pos, [open] + inner + [close])
  {
    StartsOne(ts, pos, open);
    StartsOne(ts, pos + 1 + |inner|, close);
    StartsJoin(ts, pos, [open], inner);
    StartsJoin(ts, pos, [open] + inner, [close]);
  }

  lemma StartsNamed(ts: seq<Token>, pos: nat, x: string, open: Token, inner: seq<Token>, close: Token)
    requires pos + 1 < |ts| && ts[pos] == IDENT(x) && ts[pos + 1] == open && Starts(ts, pos + 2, inner)
    requires pos + 2 + |inner| < |ts| && ts[pos + 2 + |inner|] == close
    ensures Starts(ts, pos, [IDENT(x), open] + inner + [close])
  {
    StartsBetween(ts, pos + 1, open, inner, close);
    StartsOne(ts, pos, IDENT(x));
    StartsJoin(ts, pos, [IDENT(x)], [open] + inner + [close]);
    assert [IDENT(x)] + ([open] + inner + [close]) == [IDENT(x), open] + inner + [close];
  }

  lemma {:induction false} LevelWritten(ts: seq<Token>, pos: nat, level: nat) returns (t: Tree)
    requires Tokens(ts) && pos < |ts| && level <= LEVELS && ParseLevel(ts, pos, level).Ok?
    ensures Written(ts, pos, t, level, ParseLevel(ts, pos, level))
    decreases |ts| - pos, 20 - level
  {
    if level == LEVELS {
      t := UnaryWritten(ts, pos);
    } else {
      var l := LevelWritten(ts, pos, level + 1);
      t := LoopWritten(ts, pos, ParseLevel(ts, pos, level + 1).pos, level, l);
    }
  }

  lemma {:induction false} LoopWritten(ts: seq<Token>, start: nat, pos: nat, level: nat, l: Tree) returns (t: Tree)
    requires Tokens(ts) && 0 < pos < |ts| && level < LEVELS && Written(ts, start, l, level, Ok(Strip(l), pos))
    requires ParseLoop(ts, pos, level, Strip(l)).Ok?
    ensures Written(ts, start, t, level, ParseLoop(ts, pos, level, Strip(l)))
    decreases |ts| - pos, 9
  {
    if ts[pos].SYMBOL? && OpLevel(ts[pos].text) == level {
      var r := LevelWritten(ts, pos + 1, level + 1);
      var op := ts[pos].text;
      StartsOne(ts, pos, SYMBOL(op));
      StartsJoin(ts, start, Show(l), [SYMBOL(op)]);
      StartsJoin(ts, start, Show(l) + [SYMBOL(op)], Show(r));
      t := LoopWritten(ts, start, ParseLevel(ts, pos + 1, level + 1).pos, level, TBinary(op, l, r));
    } else {
      t := l;
    }
  }

  lemma {:induction false} UnaryWritten(ts: seq<Token>, pos: nat) returns (t: Tree)
    requires Tokens(ts) && pos < |ts| && ParseUnary(ts, pos).Ok?
    ensures Written(ts, pos, t, LEVELS, ParseUnary(ts, pos))
    decreases |ts| - pos, 5
  {
    if ts[pos].SYMBOL? && IsUnary(ts[pos].text) {
      var x := UnaryWritten(ts, pos + 1);
      t := TUnary(ts[pos].text, x);
      StartsOne(ts, pos, ts[pos]);
      StartsJoin(ts, pos, [ts[pos]], Show(x));
    } else {
      t := PrimaryWritten(ts, pos);
    }
  }

  lemma {:induction false} PrimaryWritten(ts: seq<Token>, pos: nat) returns (t: Tree)
    requires Tokens(ts) && pos < |ts| && ParsePrimary(ts, pos).Ok?
    ensures Written(ts, pos, t, LEVELS, ParsePrimary(ts, pos))
    decreases |ts| - pos, 4
  {
    match ts[pos]
    case INT(v) =>
      t := TLit(v);
    case IDENT(x) =>
      t := NameWritten(ts, pos, x);
    case SYMBOL(text) =>
      var x := LevelWritten(ts, pos + 1, 0);
      t := Paren(x);
      StartsBetween(ts, pos, SYMBOL("("), Show(x), SYMBOL(")"));
  }

  lemma {:induction false} NameWritten(ts: seq<Token>, pos: nat, x: string) returns (t: Tree)
    requires Tokens(ts) && pos < |ts| && ts[pos] == IDENT(x) && ParseName(ts, pos, x).Ok?
    ensures Written(ts, pos, t, LEVELS, ParseName(ts, pos, x))
    decreases |ts| - pos, 3
  {
    if IsSymbol(ts[pos + 1], "(") {
      if IsSymbol(ts[pos + 2], ")") {
        t := TCall(x, []);
        StartsNamed(ts, pos, x, SYMBOL("("), [], SYMBOL(")"));
      } else {
        var args := ArgsWritten(ts, pos + 2);
        t := TCall(x, args);
        StartsNamed(ts, pos, x, SYMBOL("("), ShowAll(args), SYMBOL(")"));
      }
    } else if IsSymbol(ts[pos + 1], "[") {
      var i := LevelWritten(ts, pos + 2, 0);
      t := TIndex(x, i);
      StartsNamed(ts, pos, x, SYMBOL("["), Show(i), SYMBOL("]"));
    } else {
      t := TVar(x);
    }
  }

  lemma {:induction false} ArgsWritten(ts: seq<Token>, pos: nat) returns (trees: seq<Tree>)
    requires Tokens(ts) && pos < |ts| && ParseArgs(ts, pos).ArgsOk?
    ensures WrittenAll(ts, pos, trees, ParseArgs(ts, pos))
    decreases |ts| - pos, 30
  {
    var t := LevelWritten(ts, pos, 0);
    var p := ParseLevel(ts, pos, 0).pos;
    trees := [t];
    if IsSymbol(ts[p], ",") {
      var rest := ArgsWritten(ts, p + 1);
      MoreWritten(ts, pos, t, p, rest);
      trees := [t] + rest;
    }
  }

  lemma MoreWritten(ts: seq<Token>, pos: nat, t: Tree, comma: nat, rest: seq<Tree>)
    requires Tokens(ts) && pos < |ts| && Written(ts, pos, t, 0, ParseLevel(ts, pos, 0))
    requires ParseLevel(ts, pos, 0).pos == comma && comma + 1 < |ts| && ts[comma] == SYMBOL(",")
    requires WrittenAll(ts, comma + 1, rest, ParseArgs(ts, comma + 1))
    ensures WrittenAll(ts, pos, [t] + rest, ParseArgs(ts, pos))
  {
    assert ([t] + rest)[1..] == rest;
    StartsOne(ts, comma, SYMBOL(","));
    StartsJoin(ts, pos, Show(t), [SYMBOL(",")]);
    StartsJoin(ts, pos, Show(t) + [SYMBOL(",")], ShowAll(rest));
  }

  /** Whatever the parser accepts is the returned tree as written, with parentheses wherever they are needed and
      perhaps where they are not: no other tokens yield it. */
  lemma AcceptsOnlyPrintings(ts: seq<Token>, pos: nat) returns (t: Tree)
    requires Tokens(ts) && pos < |ts| && ParseLevel(ts, pos, 0).Ok?
    ensures Fits(t) && Strip(t) == ParseLevel(ts, pos, 0).expr
    ensures ParseLevel(ts, pos, 0).pos <= |ts| && ts[pos..ParseLevel(ts, pos, 0).pos] == Show(t)
  {
    t := LevelWritten(ts, pos, 0);
  }

  // ----- The minimal printing is one of them -----

  /** The tree with parentheses only where they are needed. */
  function Minimal(e: Expr, level: nat): Tree
    decreases e, 1
  {
    if LevelOf(e) < level then Paren(MinimalBare(e)) else MinimalBare(e)
  }

  function MinimalBare(e: Expr): Tree
    decreases e, 0
  {
    match e
    case Lit(v) => TLit(v)
    case Var(x) => TVar(x)
    case Index(x, i) => TIndex(x, Minimal(i, 0))
    case Call(f, args) => TCall(f, MinimalAll(args))
    case Unary(op, x) => TUnary(op, Minimal(x, LEVELS))
    case Binary(op, l, r) => TBinary(op, Minimal(l, OpLevel(op)), Minimal(r, OpLevel(op) + 1))
  }

  function MinimalAll(es: seq<Expr>): (ts: seq<Tree>)
    ensures |ts| == |es|
    decreases es
  {
    if es == [] then [] else [Minimal(es[0], 0)] + MinimalAll(es[1..])
  }

  lemma {:induction false} MinimalBareShown(e: Expr)
    requires Printable(e)
    ensures Show(MinimalBare(e)) == PrintBare(e) && Strip(MinimalBare(e)) == e && Fits(MinimalBare(e))
    ensures TreeLevel(MinimalBare(e)) == LevelOf(e)
    decreases e, 0
  {
    match e
    case Lit(_) =>
    case Var(_) =>
    case Index(_, i) => MinimalShown(i, 0);
    case Call(_, args) => MinimalAllShown(args);
    case Unary(_, x) => MinimalShown(x, LEVELS);
    case Binary(op, l, r) =>
      MinimalShown(l, OpLevel(op));
      MinimalShown(r, OpLevel(op) + 1);
  }

  /** The minimal printing is the tree as written with parentheses only where they are needed. */
  lemma {:induction false} MinimalShown(e: Expr, level: nat)
    requires Printable(e) && level <= LEVELS
    ensures Show(Minimal(e, level)) == Print(e, level) && Strip(Minimal(e, level)) == e && Fits(Minimal(e, level))
    ensures TreeLevel(Minimal(e, level)) >= level
    decreases e, 1
  {
    MinimalBareShown(e);
  }

  lemma {:induction false} MinimalAllShown(es: seq<Expr>)
    requires forall i :: 0 <= i < |es| ==> Printable(es[i])
    ensures ShowAll(MinimalAll(es)) == PrintArgs(es) && StripAll(MinimalAll(es)) == es && AllFit(MinimalAll(es))
    decreases es
  {
    if es != [] {
      MinimalShown(es[0], 0);
      MinimalAllShown(es[1..]);
      assert MinimalAll(es)[1..] == MinimalAll(es[1..]);
    }
  }
}
