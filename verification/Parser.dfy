/** Expression parsing: ten levels of left-associative binary operators over unary and primary expressions. */
module Parser {
  datatype Token = INT(value: nat) | IDENT(name: string) | SYMBOL(text: string) | KEYWORD(word: string) | EOF

  datatype Expr =
    | Lit(value: nat)
    | Var(name: string)
    | Index(name: string, index: Expr)
    | Call(name: string, args: seq<Expr>)
    | Unary(op: string, operand: Expr)
    | Binary(op: string, lhs: Expr, rhs: Expr)

  const LEVELS: nat := 10

  /** The level of a binary operator, loosest first; 10 for any other symbol. */
  function OpLevel(op: string): (r: nat)
    ensures r <= LEVELS
  {
    if op == "||" then 0
    else if op == "&&" then 1
    else if op == "|" then 2
    else if op == "^" then 3
    else if op == "&" then 4
    else if op in {"==", "!="} then 5
    else if op in {"<", "<=", ">", ">="} then 6
    else if op in {"<<", ">>"} then 7
    else if op in {"+", "-"} then 8
    else if op in {"*", "/", "%"} then 9
    else LEVELS
  }

  predicate IsUnary(op: string) {
    op in {"+", "-", "!", "~"}
  }

  predicate IsSymbol(t: Token, text: string) {
    t == SYMBOL(text)
  }

  // ----- Parsing -----

  /** An expression and the position after it, or the position of the token that does not fit. */
  datatype Result = Ok(expr: Expr, pos: nat) | Error(at: nat)

  datatype Args = ArgsOk(args: seq<Expr>, pos: nat) | ArgsError(at: nat)

  /** Token lists end with an end-of-file token. */
  predicate Tokens(ts: seq<Token>) {
    ts != [] && ts[|ts| - 1] == EOF
  }

  predicate Ahead(ts: seq<Token>, pos: nat, r: Result) {
    r.Ok? ==> pos < r.pos < |ts|
  }

  function ParseLevel(ts: seq<Token>, pos: nat, level: nat): (r: Result)
    requires Tokens(ts) && pos < |ts| && level <= LEVELS
    ensures Ahead(ts, pos, r)
    decreases |ts| - pos, 20 - level
  {
    if level == LEVELS then ParseUnary(ts, pos)
    else
      match ParseLevel(ts, pos, level + 1)
      case Error(at) => Error(at)
      case Ok(e, p) => ParseLoop(ts, p, level, e)
  }

  function ParseLoop(ts: seq<Token>, pos: nat, level: nat, lhs: Expr): (r: Result)
    requires Tokens(ts) && 0 < pos < |ts| && level < LEVELS
    ensures Ahead(ts, pos - 1, r)
    decreases |ts| - pos, 9
  {
    if ts[pos].SYMBOL? && OpLevel(ts[pos].text) == level then
      (
        match ParseLevel(ts, pos + 1, level + 1)
        case Error(at) => Error(at)
        case Ok(rhs, p) => ParseLoop(ts, p, level, Binary(ts[pos].text, lhs, rhs))
      )
    else Ok(lhs, pos)
  }

  function ParseUnary(ts: seq<Token>, pos: nat): (r: Result)
    requires Tokens(ts) && pos < |ts|
    ensures Ahead(ts, pos, r)
    decreases |ts| - pos, 5
  {
    if ts[pos].SYMBOL? && IsUnary(ts[pos].text) then
      (
        match ParseUnary(ts, pos + 1)
        case Error(at) => Error(at)
        case Ok(e, p) => Ok(Unary(ts[pos].text, e), p)
      )
    else ParsePrimary(ts, pos)
  }

  function ParsePrimary(ts: seq<Token>, pos: nat): (r: Result)
    requires Tokens(ts) && pos < |ts|
    ensures Ahead(ts, pos, r)
    decreases |ts| - pos, 4
  {
    match ts[pos]
    case INT(v) => Ok(Lit(v), pos + 1)
    case IDENT(x) => ParseName(ts, pos, x)
    case SYMBOL(text) =>
      if text != "(" then Error(pos)
      else (
        match ParseLevel(ts, pos + 1, 0)
        case Error(at) => Error(at)
        case Ok(e, p) => if IsSymbol(ts[p], ")") then Ok(e, p + 1) else Error(p)
      )
    case KEYWORD(_) => Error(pos)
    case EOF => Error(pos)
  }

  /** A name alone, with an index, or called. */
  function ParseName(ts: seq<Token>, pos: nat, x: string): (r: Result)
    requires Tokens(ts) && pos < |ts| && ts[pos] == IDENT(x)
    ensures Ahead(ts, pos, r)
    decreases |ts| - pos, 3
  {
    if IsSymbol(ts[pos + 1], "(") then
      if IsSymbol(ts[pos + 2], ")") then Ok(Call(x, []), pos + 3)
      else (
        match ParseArgs(ts, pos + 2)
        case ArgsError(at) => Error(at)
        case ArgsOk(args, p) => if IsSymbol(ts[p], ")") then Ok(Call(x, args), p + 1) else Error(p)
      )
    else if IsSymbol(ts[pos + 1], "[") then (
      match ParseLevel(ts, pos + 2, 0)
      case Error(at) => Error(at)
      case Ok(e, p) => if IsSymbol(ts[p], "]") then Ok(Index(x, e), p + 1) else Error(p)
    )
    else Ok(Var(x), pos + 1)
  }

  /** One or more arguments separated by commas. */
  function ParseArgs(ts: seq<Token>, pos: nat): (r: Args)
    requires Tokens(ts) && pos < |ts|
    ensures r.ArgsOk? ==> pos < r.pos < |ts|
    decreases |ts| - pos, 30
  {
    match ParseLevel(ts, pos, 0)
    case Error(at) => ArgsError(at)
    case Ok(e, p) =>
      if IsSymbol(ts[p], ",") then (
        match ParseArgs(ts, p + 1)
        case ArgsError(at) => ArgsError(at)
        case ArgsOk(es, q) => ArgsOk([e] + es, q)
      )
      else ArgsOk([e], p)
  }

  // ----- Printing -----

  /** Trees that have a printing: operators are operators. */
  predicate Printable(e: Expr) {
    match e
    case Lit(_) => true
    case Var(_) => true
    case Index(_, i) => Printable(i)
    case Call(_, args) => forall i :: 0 <= i < |args| ==> Printable(args[i])
    case Unary(op, x) => IsUnary(op) && Printable(x)
    case Binary(op, l, r) => OpLevel(op) < LEVELS && Printable(l) && Printable(r)
  }

  function LevelOf(e: Expr): nat {
    if e.Binary? then OpLevel(e.op) else LEVELS
  }

  /** The tokens of an expression where level `level` or tighter is expected, with parentheses only where needed. */
  function Print(e: Expr, level: nat): seq<Token>
    decreases e, 1
  {
    if LevelOf(e) < level then [SYMBOL("(")] + PrintBare(e) + [SYMBOL(")")] else PrintBare(e)
  }

  function PrintBare(e: Expr): seq<Token>
    decreases e, 0
  {
    match e
    case Lit(v) => [INT(v)]
    case Var(x) => [IDENT(x)]
    case Index(x, i) => [IDENT(x), SYMBOL("[")] + Print(i, 0) + [SYMBOL("]")]
    case Call(f, args) => [IDENT(f), SYMBOL("(")] + PrintArgs(args) + [SYMBOL(")")]
    case Unary(op, x) => [SYMBOL(op)] + Print(x, LEVELS)
    case Binary(op, l, r) => Print(l, OpLevel(op)) + [SYMBOL(op)] + Print(r, OpLevel(op) + 1)
  }

  function PrintArgs(args: seq<Expr>): seq<Token>
    decreases args
  {
    if args == [] then []
    else if |args| == 1 then Print(args[0], 0)
    else Print(args[0], 0) + [SYMBOL(",")] + PrintArgs(args[1..])
  }

  // ----- Parsing what was printed -----

  /** The tokens from `pos` on begin with `part`. */
  ghost predicate Starts(ts: seq<Token>, pos: nat, part: seq<Token>) {
    pos + |part| <= |ts| && forall i :: 0 <= i < |part| ==> ts[pos + i] == part[i]
  }

  lemma StartsParts(ts: seq<Token>, pos: nat, a: seq<Token>, b: seq<Token>)
    requires Starts(ts, pos, a + b)
    ensures Starts(ts, pos, a) && Starts(ts, pos + |a|, b)
  {
    forall i | 0 <= i < |a| ensures ts[pos + i] == a[i] {
      assert (a + b)[i] == a[i];
    }
    forall i | 0 <= i < |b| ensures ts[pos + |a| + i] == b[i] {
      assert (a + b)[|a| + i] == b[i];
    }
  }

  lemma StartsToken(ts: seq<Token>, pos: nat, t: Token)
    requires Starts(ts, pos, [t])
    ensures pos < |ts| && ts[pos] == t
  {
    assert ts[pos + 0] == [t][0];
  }

  /** A token that does not continue an expression of level `level` or tighter. */
  predicate Stops(t: Token, level: nat) {
    t.SYMBOL? ==> t.text != "(" && t.text != "[" && (OpLevel(t.text) < level || OpLevel(t.text) == LEVELS)
  }

  /** A printing is not empty and begins with a number, a name, an opening parenthesis or a unary operator. */
  lemma {:induction false} FirstToken(e: Expr, level: nat)
    requires Printable(e)
    ensures Print(e, level) != [] && PrintBare(e) != []
    ensures var t := Print(e, level)[0]; !t.SYMBOL? || t.text == "(" || IsUnary(t.text)
    decreases e
  {
    if e.Binary? {
      FirstToken(e.lhs, OpLevel(e.op));
    }
  }

  function Rank(e: Expr, level: nat): int {
    if level > LevelOf(e) then 100 - level else 50 - level
  }

  /** `part` is printed at `pos`, and `end`, the position after it, still holds a token. */
  ghost predicate Printed(ts: seq<Token>, pos: nat, part: seq<Token>, end: nat) {
    Tokens(ts) && Starts(ts, pos, part) && end == pos + |part| < |ts|
  }

  /** Parsing at a level reads the printed expression and then looks for more operators of that level. */
  lemma {:induction false} Spine(ts: seq<Token>, pos: nat, e: Expr, level: nat, end: nat)
    requires Printable(e) && level < LEVELS && Printed(ts, pos, Print(e, level), end) && Stops(ts[end], level + 1)
    ensures 0 < end && ParseLevel(ts, pos, level) == ParseLoop(ts, end, level, e)
    decreases e, Rank(e, level), 0
  {
    FirstToken(e, level);
    if LevelOf(e) == level {
      var mid := pos + |Print(e.lhs, level)|;
      OperatorBetween(ts, pos, e, mid, end);
      Spine(ts, pos, e.lhs, level, mid);
      Full(ts, mid + 1, e.rhs, level + 1, end);
      LoopStep(ts, mid, e, level, end);
    } else {
      SamePrint(e, level);
      Full(ts, pos, e, level + 1, end);
    }
  }

  /** The loop of a level takes one operator and its right operand. */
  lemma LoopStep(ts: seq<Token>, mid: nat, e: Expr, level: nat, end: nat)
    requires Tokens(ts) && 0 < mid < mid + 1 < |ts| && level < LEVELS && e.Binary? && OpLevel(e.op) == level
    requires ts[mid] == SYMBOL(e.op) && ParseLevel(ts, mid + 1, level + 1) == Ok(e.rhs, end)
    ensures 0 < end < |ts| && ParseLoop(ts, mid, level, e.lhs) == ParseLoop(ts, end, level, e)
  {
  }

  lemma OperatorBetween(ts: seq<Token>, pos: nat, e: Expr, mid: nat, end: nat)
    requires e.Binary? && Printed(ts, pos, PrintBare(e), end) && mid == pos + |Print(e.lhs, OpLevel(e.op))|
    ensures mid < |ts| && ts[mid] == SYMBOL(e.op)
    ensures Printed(ts, pos, Print(e.lhs, OpLevel(e.op)), mid)
    ensures Printed(ts, mid + 1, Print(e.rhs, OpLevel(e.op) + 1), end)
  {
    var op, l, r := e.op, Print(e.lhs, OpLevel(e.op)), Print(e.rhs, OpLevel(e.op) + 1);
    assert PrintBare(e) == l + ([SYMBOL(op)] + r);
    StartsParts(ts, pos, l, [SYMBOL(op)] + r);
    StartsParts(ts, mid, [SYMBOL(op)], r);
    StartsToken(ts, mid, SYMBOL(op));
  }

  /** The next level up prints the same, unless the expression is at this very level. */
  lemma SamePrint(e: Expr, level: nat)
    requires LevelOf(e) != level
    ensures Print(e, level) == Print(e, level + 1)
  {
  }

  /** Parsing a printed expression gives it back and consumes exactly its tokens. */
  lemma {:induction false} Full(ts: seq<Token>, pos: nat, e: Expr, level: nat, end: nat)
    requires Printable(e) && level <= LEVELS && Printed(ts, pos, Print(e, level), end) && Stops(ts[end], level)
    ensures pos < |ts| && ParseLevel(ts, pos, level) == Ok(e, end)
    decreases e, Rank(e, level), 1
  {
    FirstToken(e, level);
    if level < LEVELS {
      Spine(ts, pos, e, level, end);
    } else if LevelOf(e) < LEVELS {
      Parenthesised(ts, pos, e, end);
    } else if e.Unary? {
      StartsParts(ts, pos, [SYMBOL(e.op)], Print(e.operand, LEVELS));
      StartsToken(ts, pos, SYMBOL(e.op));
      Full(ts, pos + 1, e.operand, LEVELS, end);
    } else {
      Primary(ts, pos, e, end);
    }
  }

  /** At a token that is no unary operator, the tightest level is a primary expression. */
  lemma AtPrimary(ts: seq<Token>, pos: nat)
    requires Tokens(ts) && pos < |ts| && !(ts[pos].SYMBOL? && IsUnary(ts[pos].text))
    ensures ParseLevel(ts, pos, LEVELS) == ParsePrimary(ts, pos)
  {
    assert ParseLevel(ts, pos, LEVELS) == ParseUnary(ts, pos);
  }

  lemma {:induction false} Parenthesised(ts: seq<Token>, pos: nat, e: Expr, end: nat)
    requires Printable(e) && LevelOf(e) < LEVELS && Printed(ts, pos, Print(e, LEVELS), end)
    ensures pos < |ts| && ParseLevel(ts, pos, LEVELS) == Ok(e, end)
    decreases e, 60
  {
    Bracketed(ts, pos, SYMBOL("("), PrintBare(e), SYMBOL(")"), end);
    assert Print(e, 0) == PrintBare(e);
    Full(ts, pos + 1, e, 0, end - 1);
    AtPrimary(ts, pos);
  }

  /** The parts of something printed between two tokens. */
  lemma Bracketed(ts: seq<Token>, pos: nat, open: Token, inner: seq<Token>, close: Token, end: nat)
    requires Printed(ts, pos, [open] + inner + [close], end)
    ensures pos < |ts| && ts[pos] == open && end > 0 && ts[end - 1] == close && Printed(ts, pos + 1, inner, end - 1)
  {
    assert [open] + inner + [close] == [open] + (inner + [close]);
    StartsParts(ts, pos, [open], inner + [close]);
    StartsToken(ts, pos, open);
    StartsParts(ts, pos + 1, inner, [close]);
    StartsToken(ts, end - 1, close);
  }

  lemma {:induction false} Primary(ts: seq<Token>, pos: nat, e: Expr, end: nat)
    requires Printable(e) && !e.Unary? && !e.Binary? && Printed(ts, pos, PrintBare(e), end) && Stops(ts[end], LEVELS)
    ensures pos < |ts| && ParseLevel(ts, pos, LEVELS) == Ok(e, end)
    decreases e, 10
  {
    if e.Lit? {
      StartsToken(ts, pos, INT(e.value));
      AtPrimary(ts, pos);
    } else {
      Named(ts, pos, e, end);
      AtPrimary(ts, pos);
      assert ParsePrimary(ts, pos) == ParseName(ts, pos, e.name);
    }
  }

  lemma {:induction false} Named(ts: seq<Token>, pos: nat, e: Expr, end: nat)
    requires Printable(e) && (e.Var? || e.Index? || e.Call?) && Printed(ts, pos, PrintBare(e), end)
    requires Stops(ts[end], LEVELS)
    ensures pos < |ts| && ts[pos] == IDENT(e.name) && ParseName(ts, pos, e.name) == Ok(e, end)
    decreases e, 9
  {
    match e
    case Var(x) => StartsToken(ts, pos, IDENT(x));
    case Index(x, i) =>
      NameFirst(ts, pos, x, SYMBOL("["), Print(i, 0), SYMBOL("]"), end);
      Full(ts, pos + 2, i, 0, end - 1);
    case Call(f, args) =>
      NameFirst(ts, pos, f, SYMBOL("("), PrintArgs(args), SYMBOL(")"), end);
      if args != [] {
        FirstArgument(args);
        assert ts[pos + 2] == PrintArgs(args)[0];
        FullArgs(ts, pos + 2, args, end - 1);
      }
  }

  lemma NameFirst(ts: seq<Token>, pos: nat, x: string, open: Token, inner: seq<Token>, close: Token, end: nat)
    requires Printed(ts, pos, [IDENT(x), open] + inner + [close], end)
    ensures pos + 1 < |ts| && ts[pos] == IDENT(x) && ts[pos + 1] == open && end > 0 && ts[end - 1] == close
    ensures Printed(ts, pos + 2, inner, end - 1)
  {
    assert [IDENT(x), open] + inner + [close] == [IDENT(x)] + ([open] + inner + [close]);
    StartsParts(ts, pos, [IDENT(x)], [open] + inner + [close]);
    StartsToken(ts, pos, IDENT(x));
    Bracketed(ts, pos + 1, open, inner, close, end);
  }

  lemma FirstArgument(args: seq<Expr>)
    requires args != [] && Printable(args[0])
    ensures PrintArgs(args) != [] && PrintArgs(args)[0] != SYMBOL(")")
  {
    FirstToken(args[0], 0);
  }

  /** Arguments are printed from `pos` to `end`, one by one. */
  ghost predicate PrintedArgs(ts: seq<Token>, pos: nat, args: seq<Expr>, end: nat)
    decreases args
  {
    && args != [] && Printable(args[0])
    && var comma := pos + |Print(args[0], 0)|;
       && Printed(ts, pos, Print(args[0], 0), comma)
       && if |args| == 1 then comma == end && ts[end] == SYMBOL(")")
          else ts[comma] == SYMBOL(",") && PrintedArgs(ts, comma + 1, args[1..], end)
  }

  lemma {:induction false} ArgsPrinted(ts: seq<Token>, pos: nat, args: seq<Expr>, end: nat)
    requires args != [] && (forall i :: 0 <= i < |args| ==> Printable(args[i]))
    requires Printed(ts, pos, PrintArgs(args), end) && ts[end] == SYMBOL(")")
    ensures PrintedArgs(ts, pos, args, end)
    decreases args
  {
    if |args| == 1 {
      assert PrintArgs(args) == Print(args[0], 0);
    } else {
      var comma := pos + |Print(args[0], 0)|;
      CommaBetween(ts, pos, args, comma, end);
      ArgsPrinted(ts, comma + 1, args[1..], end);
      ArgsJoin(ts, pos, args, comma, end);
    }
  }

  lemma ArgsJoin(ts: seq<Token>, pos: nat, args: seq<Expr>, comma: nat, end: nat)
    requires |args| > 1 && Printable(args[0]) && comma == pos + |Print(args[0], 0)|
    requires Printed(ts, pos, Print(args[0], 0), comma) && ts[comma] == SYMBOL(",")
    requires PrintedArgs(ts, comma + 1, args[1..], end)
    ensures PrintedArgs(ts, pos, args, end)
  {
  }

  lemma FullArgs(ts: seq<Token>, pos: nat, args: seq<Expr>, end: nat)
    requires args != [] && (forall i :: 0 <= i < |args| ==> Printable(args[i]))
    requires Printed(ts, pos, PrintArgs(args), end) && ts[end] == SYMBOL(")")
    ensures pos < |ts| && ParseArgs(ts, pos) == ArgsOk(args, end)
    decreases args
  {
    ArgsPrinted(ts, pos, args, end);
    EachArg(ts, pos, args, end);
  }

  lemma {:induction false} EachArg(ts: seq<Token>, pos: nat, args: seq<Expr>, end: nat)
    requires PrintedArgs(ts, pos, args, end)
    ensures pos < end < |ts| && ParseArgs(ts, pos) == ArgsOk(args, end)
    decreases args, 0
  {
    Closers();
    var comma := pos + |Print(args[0], 0)|;
    Full(ts, pos, args[0], 0, comma);
    if |args| == 1 {
      LastArg(ts, pos, args[0], end);
    } else {
      EachArg(ts, comma + 1, args[1..], end);
      MoreArgs(ts, pos, args, comma, end);
    }
  }

  lemma LastArg(ts: seq<Token>, pos: nat, arg: Expr, end: nat)
    requires Tokens(ts) && pos < |ts| && ParseLevel(ts, pos, 0) == Ok(arg, end) && ts[end] == SYMBOL(")")
    ensures ParseArgs(ts, pos) == ArgsOk([arg], end)
  {
  }

  /** The tokens that close an argument, an index or a parenthesis continue no expression. */
  lemma Closers()
    ensures Stops(SYMBOL(")"), 0) && Stops(SYMBOL(","), 0) && Stops(SYMBOL("]"), 0)
  {
  }

  lemma MoreArgs(ts: seq<Token>, pos: nat, args: seq<Expr>, comma: nat, end: nat)
    requires Tokens(ts) && args != [] && pos < |ts| && ParseLevel(ts, pos, 0) == Ok(args[0], comma)
    requires comma + 1 < |ts| && ts[comma] == SYMBOL(",") && ParseArgs(ts, comma + 1) == ArgsOk(args[1..], end)
    ensures ParseArgs(ts, pos) == ArgsOk(args, end)
  {
    assert [args[0]] + args[1..] == args;
  }

  lemma CommaBetween(ts: seq<Token>, pos: nat, args: seq<Expr>, comma: nat, end: nat)
    requires |args| > 1 && Printed(ts, pos, PrintArgs(args), end) && comma == pos + |Print(args[0], 0)|
    ensures comma < |ts| && ts[comma] == SYMBOL(",")
    ensures Printed(ts, pos, Print(args[0], 0), comma) && Printed(ts, comma + 1, PrintArgs(args[1..]), end)
  {
    var head, rest := Print(args[0], 0), PrintArgs(args[1..]);
    assert PrintArgs(args) == head + ([SYMBOL(",")] + rest);
    StartsParts(ts, pos, head, [SYMBOL(",")] + rest);
    StartsParts(ts, comma, [SYMBOL(",")], rest);
    StartsToken(ts, comma, SYMBOL(","));
  }

  lemma Between(a: seq<Token>, b: seq<Token>, c: seq<Token>)
    requires Tokens(c)
    ensures Printed(a + b + c, |a|, b, |a| + |b|) && (a + b + c)[|a| + |b|] == c[0]
  {
  }

  /** Parsing inverts printing: whatever follows, as long as it does not continue the expression, the tree comes back
      and exactly its tokens are consumed. */
  lemma ParseInvertsPrint(before: seq<Token>, e: Expr, after: seq<Token>)
    requires Printable(e) && Tokens(after) && Stops(after[0], 0)
    ensures var ts := before + Print(e, 0) + after;
            Tokens(ts) && ParseLevel(ts, |before|, 0) == Ok(e, |before| + |Print(e, 0)|)
  {
    var ts := before + Print(e, 0) + after;
    Between(before, Print(e, 0), after);
    Full(ts, |before|, e, 0, |before| + |Print(e, 0)|);
  }

  // ----- The parser -----

  class Cursor {
    const tokens: seq<Token>
    var pos: nat

    constructor (ts: seq<Token>)
      requires Tokens(ts)
      ensures tokens == ts && pos == 0
    {
      tokens, pos := ts, 0;
    }

    /** parse_logical_or down to parse_multiplicative, and parse_unary at the last level. */
    method Level(level: nat) returns (r: Result)
      requires Tokens(tokens) && pos < |tokens| && level <= LEVELS
      modifies this
      ensures r == ParseLevel(tokens, old(pos), level) && (r.Ok? ==> pos == r.pos)
      decreases |tokens| - pos, 20 - level
    {
      if level == LEVELS {
        r := Prefix();
        return;
      }
      r := Level(level + 1);
      if r.Error? {
        return;
      }
      var expr := r.expr;
      while tokens[pos].SYMBOL? && OpLevel(tokens[pos].text) == level
        invariant old(pos) < pos < |tokens|
        invariant ParseLevel(tokens, old(pos), level) == ParseLoop(tokens, pos, level, expr)
        decreases |tokens| - pos
      {
        var op := tokens[pos].text;
        pos := pos + 1;
        r := Level(level + 1);
        if r.Error? {
          return;
        }
        expr := Binary(op, expr, r.expr);
      }
      r := Ok(expr, pos);
    }

    /** parse_unary. */
    method Prefix() returns (r: Result)
      requires Tokens(tokens) && pos < |tokens|
      modifies this
      ensures r == ParseUnary(tokens, old(pos)) && (r.Ok? ==> pos == r.pos)
      decreases |tokens| - pos, 5
    {
      var tok := tokens[pos];
      if tok.SYMBOL? && IsUnary(tok.text) {
        pos := pos + 1;
        r := Prefix();
        if r.Ok? {
          r := Ok(Unary(tok.text, r.expr), r.pos);
        }
        return;
      }
      r := Atom();
    }

    /** parse_primary. */
    method Atom() returns (r: Result)
      requires Tokens(tokens) && pos < |tokens|
      modifies this
      ensures r == ParsePrimary(tokens, old(pos)) && (r.Ok? ==> pos == r.pos)
      decreases |tokens| - pos, 4
    {
      var tok := tokens[pos];
      if tok.INT? {
        pos := pos + 1;
        return Ok(Lit(tok.value), pos);
      }
      if tok.IDENT? {
        r := Name(tok.name);
        return;
      }
      if IsSymbol(tok, "(") {
        pos := pos + 1;
        r := Level(0);
        r := Close(r, ")");
        return;
      }
      return Error(pos);
    }

    /** Expects a closing symbol after an expression. */
    method Close(inner: Result, text: string) returns (r: Result)
      requires Tokens(tokens) && (inner.Ok? ==> pos == inner.pos < |tokens|) && text != ""
      modifies this
      ensures inner.Error? ==> r == inner
      ensures inner.Ok? ==>
                r == if IsSymbol(tokens[inner.pos], text) then Ok(inner.expr, inner.pos + 1) else Error(inner.pos)
      ensures r.Ok? ==> pos == r.pos
    {
      if inner.Error? {
        return inner;
      }
      if !IsSymbol(tokens[pos], text) {
        return Error(pos);
      }
      pos := pos + 1;
      return Ok(inner.expr, pos);
    }

    method Name(x: string) returns (r: Result)
      requires Tokens(tokens) && pos < |tokens| && tokens[pos] == IDENT(x)
      modifies this
      ensures r == ParseName(tokens, old(pos), x) && (r.Ok? ==> pos == r.pos)
      decreases |tokens| - pos, 3
    {
      if IsSymbol(tokens[pos + 1], "(") {
        r := CallExpr(x);
        return;
      }
      pos := pos + 1;
      if IsSymbol(tokens[pos], "[") {
        pos := pos + 1;
        r := Level(0);
        r := Close(r, "]");
        if r.Ok? {
          r := Ok(Index(x, r.expr), r.pos);
        }
        return;
      }
      return Ok(Var(x), pos);
    }

    /** parse_call_expr. */
    method CallExpr(x: string) returns (r: Result)
      requires Tokens(tokens) && pos < |tokens| && tokens[pos] == IDENT(x) && IsSymbol(tokens[pos + 1], "(")
      modifies this
      ensures r == ParseName(tokens, old(pos), x) && (r.Ok? ==> pos == r.pos)
      decreases |tokens| - pos, 2
    {
      pos := pos + 2;
      if IsSymbol(tokens[pos], ")") {
        pos := pos + 1;
        return Ok(Call(x, []), pos);
      }
      var args := Arguments();
      match args
      case ArgsError(at) => r := Error(at);
      case ArgsOk(es, _) =>
        if !IsSymbol(tokens[pos], ")") {
          return Error(pos);
        }
        pos := pos + 1;
        r := Ok(Call(x, es), pos);
    }

    /** The loop of parse_call_expr over one or more arguments. */
    method Arguments() returns (r: Args)
      requires Tokens(tokens) && pos < |tokens|
      modifies this
      ensures r == ParseArgs(tokens, old(pos)) && (r.ArgsOk? ==> pos == r.pos)
      decreases |tokens| - pos, 30
    {
      var args: seq<Expr> := [];
      ghost var start := pos;
      while true
        invariant start <= pos < |tokens| && ParseArgs(tokens, start) == Prepended(args, ParseArgs(tokens, pos))
        decreases |tokens| - pos
      {
        ghost var here := pos;
        var next := Level(0);
        if next.Error? {
          return ArgsError(next.at);
        }
        NextArg(tokens, here, args, next.expr, pos);
        args := args + [next.expr];
        if !IsSymbol(tokens[pos], ",") {
          return ArgsOk(args, pos);
        }
        pos := pos + 1;
      }
    }
  }

  lemma NextArg(ts: seq<Token>, pos: nat, args: seq<Expr>, e: Expr, p: nat)
    requires Tokens(ts) && pos < |ts| && ParseLevel(ts, pos, 0) == Ok(e, p)
    ensures IsSymbol(ts[p], ",") ==> Prepended(args, ParseArgs(ts, pos)) == Prepended(args + [e], ParseArgs(ts, p + 1))
    ensures !IsSymbol(ts[p], ",") ==> Prepended(args, ParseArgs(ts, pos)) == ArgsOk(args + [e], p)
  {
    if IsSymbol(ts[p], ",") {
      var rest := ParseArgs(ts, p + 1);
      if rest.ArgsOk? {
        assert args + ([e] + rest.args) == args + [e] + rest.args;
      }
    }
  }

  function Prepended(args: seq<Expr>, r: Args): Args {
    if r.ArgsOk? then ArgsOk(args + r.args, r.pos) else r
  }
}
