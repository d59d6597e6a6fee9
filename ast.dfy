/**
 * The abstract syntax tree of Monkey programs and its printer (ast/ast.go).
 * Nodes are values; the one node the source updates as an object, the
 * program, is a class.
 */
module Ast {
  import opened Wrappers
  import opened GoInt
  import Text

  /**
   * Expressions. `tok` is the literal of the node's first token, which
   * `TokenLiteral` returns; an identifier's token literal is its name, as the
   * parser builds it (parser/parser.go:92-95).
   */
  datatype Expr =
    | Ident(name: string)
    | IntLit(tok: string, intValue: Int)
    | BoolLit(tok: string, boolValue: bool)
    | NullLit(tok: string)
    | StrLit(tok: string, strValue: string)
    | Prefix(tok: string, op: string, rhs: Expr)
    | Infix(tok: string, lhs: Expr, op: string, rhs: Expr)
    | If(tok: string, cond: Expr, consequence: Block, alternative: Option<Block>)
    | FnLit(tok: string, params: seq<string>, body: Block)
    | MacroLit(tok: string, params: seq<string>, body: Block)
    | Call(tok: string, callee: Expr, args: seq<Expr>)
    | ArrayLit(tok: string, elements: seq<Expr>)
    | Index(tok: string, left: Expr, index: Expr)
    | HashLit(tok: string, pairs: seq<Pair>)

  /** One key/value pair of a hash literal; the sequence order stands for Go's map iteration order. */
  datatype Pair = Pair(key: Expr, value: Expr)

  /**
   * Statements. A `let` whose value the parser skipped has no value (Go's nil).
   * `NilLet` is the nil `*ast.LetStatement` that `parseLetStatement` returns
   * for a broken `let` head: as an `ast.Statement` it is a non-nil interface
   * holding a nil pointer, so the program keeps it, and every method or field
   * read on it dereferences nil.
   */
  datatype Stmt =
    | Let(tok: string, name: string, value: Option<Expr>)
    | Return(tok: string, result: Expr)
    | ExprStmt(tok: string, expr: Expr)
    | NilLet

  datatype Block = Block(tok: string, stmts: seq<Stmt>)

  /** `ast.Program`: the statement list that macro definition and expansion rewrite in place. */
  class Program {
    var statements: seq<Stmt>

    constructor (stmts: seq<Stmt>)
      ensures statements == stmts
    {
      statements := stmts;
    }

    /**
     * The program's rendering: the statements' renderings concatenated with no
     * separator, so that any split of the statement list splits the text; a
     * nil let among them panics.
     */
    function String(): (r: Outcome<string>)
      reads this
      ensures r.Ok? || r == Panic(NilDereference)
      ensures r.Panic? <==> NilLet in statements
      ensures statements == [] ==> r == Ok("")
      ensures r.Ok? ==> forall k | 0 <= k <= |statements| ::
        r.value == StmtsString(statements[..k]) + StmtsString(statements[k..])
    {
      if NilLet in statements then Panic(NilDereference)
      else
        StmtsStringSplits(statements);
        Ok(StmtsString(statements))
    }

    /** The first statement's token literal, or "" for an empty program; a nil let first panics. */
    function TokenLiteral(): (r: Outcome<string>)
      reads this
      ensures statements == [] ==> r == Ok("")
      ensures statements != [] && statements[0].NilLet? ==> r == Panic(NilDereference)
      ensures statements != [] && !statements[0].NilLet? ==> r == Ok(statements[0].tok)
    {
      if |statements| == 0 then Ok("")
      else if statements[0].NilLet? then Panic(NilDereference)
      else Ok(statements[0].tok)
    }
  }

  /** Go's `%T` of an expression node. */
  function TypeName(e: Expr): string
  {
    match e
    case Ident(_) => "*ast.Identifier"
    case IntLit(_, _) => "*ast.IntegerLiteral"
    case BoolLit(_, _) => "*ast.BooleanExpression"
    case NullLit(_) => "*ast.NullExpression"
    case StrLit(_, _) => "*ast.StringLiteral"
    case Prefix(_, _, _) => "*ast.PrefixExpression"
    case Infix(_, _, _, _) => "*ast.InfixExpression"
    case If(_, _, _, _) => "*ast.IfExpression"
    case FnLit(_, _, _) => "*ast.FunctionLiteral"
    case MacroLit(_, _, _) => "*ast.MacroLiteral"
    case Call(_, _, _) => "*ast.CallExpression"
    case ArrayLit(_, _) => "*ast.ArrayLiteral"
    case Index(_, _, _) => "*ast.IndexExpression"
    case HashLit(_, _) => "*ast.HashLiteral"
  }

  // ---------------------------------------------------------------- token literals

  /** `TokenLiteral()` of an expression: for identifiers and the literal leaves other than integers, also its rendering. */
  function ExprTokenLiteral(e: Expr): (t: string)
    ensures e.Ident? || e.BoolLit? || e.NullLit? || e.StrLit? ==> t == ExprString(e)
  {
    if e.Ident? then e.name else e.tok
  }

  // ---------------------------------------------------------------- printer

  /**
   * `String()` of an expression node: operator and index nodes come fully
   * parenthesised, array literals in brackets, hash literals in braces, and
   * calls end with their closing parenthesis.
   */
  function ExprString(e: Expr): (s: string)
    ensures e.Prefix? || e.Infix? || e.Index? ==> |s| >= 2 && s[0] == '(' && s[|s| - 1] == ')'
    ensures e.ArrayLit? ==> |s| >= 2 && s[0] == '[' && s[|s| - 1] == ']'
    ensures e.HashLit? ==> |s| >= 2 && s[0] == '{' && s[|s| - 1] == '}'
    ensures e.Call? ==> |s| >= 2 && s[|s| - 1] == ')'
    ensures e.If? ==> "if" <= s
  {
    match e
    case Ident(name) => name
    case IntLit(_, v) => Text.Decimal(v)
    case BoolLit(tok, _) => tok
    case NullLit(tok) => tok
    case StrLit(tok, _) => tok
    case Prefix(_, op, rhs) => "(" + op + ExprString(rhs) + ")"
    case Infix(_, lhs, op, rhs) => "(" + ExprString(lhs) + op + ExprString(rhs) + ")"
    case If(_, c, b, alt) =>
      "if" + ExprString(c) + " " + BlockString(b) +
      (match alt case Some(eb) => "else " + BlockString(eb) case None => "")
    case FnLit(_, ps, body) => "fn(" + Text.Join(ps, ",") + ")" + BlockString(body)
    case MacroLit(_, ps, body) => "macro(" + Text.Join(ps, ",") + ")" + BlockString(body)
    case Call(_, f, args) => ExprString(f) + "(" + Text.Join(ExprStrings(args), ",") + ")"
    case ArrayLit(_, es) => "[" + Text.Join(ExprStrings(es), ",") + "]"
    case Index(_, l, i) => "(" + ExprString(l) + "[" + ExprString(i) + "])"
    case HashLit(_, ps) => "{" + Text.Join(PairStrings(ps), ",") + "}"
  }

  /** One rendering per element, in order. */
  function ExprStrings(es: seq<Expr>): (r: seq<string>)
    ensures |r| == |es|
    ensures forall k | 0 <= k < |es| :: r[k] == ExprString(es[k])
  {
    if es == [] then [] else [ExprString(es[0])] + ExprStrings(es[1..])
  }

  function PairString(p: Pair): string
  {
    ExprString(p.key) + ":" + ExprString(p.value)
  }

  /** One rendering per pair, in order. */
  function PairStrings(ps: seq<Pair>): (r: seq<string>)
    ensures |r| == |ps|
    ensures forall k | 0 <= k < |ps| :: r[k] == PairString(ps[k])
  {
    if ps == [] then [] else [PairString(ps[0])] + PairStrings(ps[1..])
  }

  /**
   * `String()` of a statement node: `let` and `return` start with their token
   * and a blank and end with `;`, and an expression statement prints as its
   * expression. Go's method panics on the nil let; here it prints as nothing,
   * and `Program.String` carries the panic.
   */
  function StmtString(s: Stmt): (r: string)
    ensures s.Let? ==> s.tok + " " + s.name + " = " <= r && r[|r| - 1] == ';'
    ensures s.Return? ==> s.tok + " " <= r && r[|r| - 1] == ';'
    ensures s.ExprStmt? ==> r == ExprString(s.expr)
  {
    match s
    case Let(tok, name, v) =>
      tok + " " + name + " = " + (match v case Some(e) => ExprString(e) case None => "") + ";"
    case Return(tok, v) => tok + " " + ExprString(v) + ";"
    case ExprStmt(_, e) => ExprString(e)
    case NilLet => ""
  }

  /** The statements' renderings concatenated, with no separator: the first statement's rendering comes first. */
  function StmtsString(ss: seq<Stmt>): (r: string)
    ensures ss == [] ==> r == ""
    ensures ss != [] ==> StmtString(ss[0]) <= r
  {
    if ss == [] then "" else StmtString(ss[0]) + StmtsString(ss[1..])
  }

  /** A block prints without braces: an empty block prints as nothing, any other starts with its first statement. */
  function BlockString(b: Block): (r: string)
    ensures b.stmts == [] ==> r == ""
    ensures b.stmts != [] ==> StmtString(b.stmts[0]) <= r
  {
    StmtsString(b.stmts)
  }

  // ---------------------------------------------------------------- sizes (termination measures)

  function ExprSize(e: Expr): (n: nat)
    ensures n >= 1
  {
    match e
    case Prefix(_, _, rhs) => 1 + ExprSize(rhs)
    case Infix(_, l, _, r) => 1 + ExprSize(l) + ExprSize(r)
    case If(_, c, b, alt) =>
      1 + ExprSize(c) + BlockSize(b) + (match alt case Some(eb) => BlockSize(eb) case None => 0)
    case FnLit(_, _, body) => 1 + BlockSize(body)
    case MacroLit(_, _, body) => 1 + BlockSize(body)
    case Call(_, f, args) => 1 + ExprSize(f) + ExprsSize(args)
    case ArrayLit(_, es) => 1 + ExprsSize(es)
    case Index(_, l, i) => 1 + ExprSize(l) + ExprSize(i)
    case HashLit(_, ps) => 1 + PairsSize(ps)
    case _ => 1
  }

  function ExprsSize(es: seq<Expr>): nat
  {
    if es == [] then 0 else ExprSize(es[0]) + ExprsSize(es[1..])
  }

  function PairSize(p: Pair): nat
  {
    ExprSize(p.key) + ExprSize(p.value)
  }

  function PairsSize(ps: seq<Pair>): nat
  {
    if ps == [] then 0 else PairSize(ps[0]) + PairsSize(ps[1..])
  }

  function StmtSize(s: Stmt): (n: nat)
    ensures n >= 1
  {
    match s
    case Let(_, _, v) => 1 + (match v case Some(e) => ExprSize(e) case None => 0)
    case Return(_, v) => 1 + ExprSize(v)
    case ExprStmt(_, e) => 1 + ExprSize(e)
    case NilLet => 1
  }

  function StmtsSize(ss: seq<Stmt>): nat
  {
    if ss == [] then 0 else StmtSize(ss[0]) + StmtsSize(ss[1..])
  }

  function BlockSize(b: Block): (n: nat)
    ensures n >= 1
  {
    1 + StmtsSize(b.stmts)
  }

  // ---------------------------------------------------------------- properties of the printer

  /** Rendering a statement list distributes over concatenation: no separator is ever inserted. */
  lemma {:induction false} StmtsStringAppend(a: seq<Stmt>, b: seq<Stmt>)
    ensures StmtsString(a + b) == StmtsString(a) + StmtsString(b)
  {
    if a != [] {
      StmtsStringAppend(a[1..], b);
      assert (a + b)[0] == a[0];
      assert (a + b)[1..] == a[1..] + b;
      calc {
        StmtsString(a + b);
        StmtString(a[0]) + StmtsString(a[1..] + b);
        StmtString(a[0]) + (StmtsString(a[1..]) + StmtsString(b));
      }
    } else {
      assert a + b == b;
    }
  }

  /** Every split of a statement list splits its rendering. */
  lemma StmtsStringSplits(ss: seq<Stmt>)
    ensures forall k | 0 <= k <= |ss| :: StmtsString(ss) == StmtsString(ss[..k]) + StmtsString(ss[k..])
  {
    forall k | 0 <= k <= |ss|
      ensures StmtsString(ss) == StmtsString(ss[..k]) + StmtsString(ss[k..])
    {
      assert ss == ss[..k] + ss[k..];
      StmtsStringAppend(ss[..k], ss[k..]);
    }
  }

  /** An integer literal renders as its value in decimal: reading the rendering back gives the value. */
  lemma IntLitReadsBack(tok: string, v: Int)
    ensures Text.IsDecimal(ExprString(IntLit(tok, v)))
    ensures Text.DecimalValue(ExprString(IntLit(tok, v))) == v
  {
    Text.DecimalRoundTrip(v);
  }

  /**
   * The operator subset the precedence tests exercise: identifiers, integer
   * literals, prefix, infix, index, call and array nodes whose names and
   * operators hold no blank.
   */
  predicate Operators(e: Expr)
  {
    match e
    case Ident(name) => ' ' !in name
    case IntLit(_, _) => true
    case Prefix(_, op, rhs) => ' ' !in op && Operators(rhs)
    case Infix(_, l, op, r) => ' ' !in op && Operators(l) && Operators(r)
    case Index(_, l, i) => Operators(l) && Operators(i)
    case Call(_, f, args) => Operators(f) && forall k | 0 <= k < |args| :: Operators(args[k])
    case ArrayLit(_, es) => forall k | 0 <= k < |es| :: Operators(es[k])
    case _ => false
  }

  /** The printer puts no blank between operands and operators: "(a+(b*c))", never "(a + (b * c))". */
  lemma {:induction false} OperatorsRenderWithoutBlanks(e: Expr)
    requires Operators(e)
    ensures ' ' !in ExprString(e)
  {
    match e
    case Ident(_) =>
    case IntLit(_, v) => DecimalHasNoBlank(v);
    case Prefix(_, _, rhs) => OperatorsRenderWithoutBlanks(rhs);
    case Infix(_, l, _, r) =>
      OperatorsRenderWithoutBlanks(l);
      OperatorsRenderWithoutBlanks(r);
    case Index(_, l, i) =>
      OperatorsRenderWithoutBlanks(l);
      OperatorsRenderWithoutBlanks(i);
    case Call(_, f, args) =>
      OperatorsRenderWithoutBlanks(f);
      ListRendersWithoutBlanks(args);
      JoinWithoutBlanks(ExprStrings(args), ",");
    case ArrayLit(_, es) =>
      ListRendersWithoutBlanks(es);
      JoinWithoutBlanks(ExprStrings(es), ",");
  }

  lemma {:induction false} ListRendersWithoutBlanks(es: seq<Expr>)
    requires forall k | 0 <= k < |es| :: Operators(es[k])
    ensures forall k | 0 <= k < |es| :: ' ' !in ExprStrings(es)[k]
  {
    if es != [] {
      OperatorsRenderWithoutBlanks(es[0]);
      ListRendersWithoutBlanks(es[1..]);
      assert forall k | 1 <= k < |es| :: ExprStrings(es)[k] == ExprStrings(es[1..])[k - 1];
    }
  }

  lemma {:induction false} JoinWithoutBlanks(xs: seq<string>, sep: string)
    requires ' ' !in sep
    requires forall k | 0 <= k < |xs| :: ' ' !in xs[k]
    ensures ' ' !in Text.Join(xs, sep)
  {
    if |xs| > 1 {
      JoinWithoutBlanks(xs[1..], sep);
    }
  }

  lemma DecimalHasNoBlank(v: int)
    ensures ' ' !in Text.Decimal(v)
  {
    var d := Text.Decimal(v);
    if v < 0 {
      var ds := Text.Digits(-v);
      assert d == "-" + ds;
      assert forall k | 1 <= k < |d| :: d[k] == ds[k - 1];
    }
    assert forall k | 0 <= k < |d| :: d[k] != ' ';
  }

  /** Renderings the source's tests fix (ast/ast_test.go and the precedence table of the parser tests). */
  lemma GoldenLetRendering()
    ensures StmtString(Let("let", "foo", Some(Ident("bar")))) == "let foo = bar;"
  {
  }

  lemma GoldenInfixRenderings()
    ensures ExprString(Infix("+", Ident("a"), "+", Infix("*", Ident("b"), "*", Ident("c")))) == "(a+(b*c))"
    ensures ExprString(Infix("+", Infix("+", Ident("a"), "+", Ident("b")), "+", Ident("c"))) == "((a+b)+c)"
    ensures ExprString(Prefix("!", "!", Prefix("-", "-", Ident("a")))) == "(!(-a))"
  {
    InfixRendering("+", Ident("a"), Infix("*", Ident("b"), "*", Ident("c")));
    InfixRendering("*", Ident("b"), Ident("c"));
    InfixRendering("+", Infix("+", Ident("a"), "+", Ident("b")), Ident("c"));
    InfixRendering("+", Ident("a"), Ident("b"));
    assert ExprString(Prefix("-", "-", Ident("a"))) == "(-a)";
  }

  /** An infix node prints as its operands around its operator, in parentheses. */
  lemma InfixRendering(op: string, l: Expr, r: Expr)
    ensures ExprString(Infix(op, l, op, r)) == "(" + ExprString(l) + op + ExprString(r) + ")"
  {
  }

  lemma GoldenArrayRendering()
    ensures ExprString(ArrayLit("[", [IntLit("1", 1), IntLit("2", 2)])) == "[1,2]"
  {
    assert Text.Decimal(1) == "1";
    assert Text.Decimal(2) == "2";
    assert ExprStrings([IntLit("2", 2)]) == ["2"];
    assert ExprStrings([IntLit("1", 1), IntLit("2", 2)]) == ["1", "2"];
    assert Text.Join(["1", "2"], ",") == "1,2";
  }

  lemma GoldenCallRendering()
    ensures ExprString(Call("(", Ident("add"), [Ident("a"), Index("[", Ident("b"), IntLit("1", 1))])) == "add(a,(b[1]))"
  {
    var args := [Ident("a"), Index("[", Ident("b"), IntLit("1", 1))];
    calc {
      ExprString(Call("(", Ident("add"), args));
    == { CallRendering("(", Ident("add"), args); }
      "add" + "(" + Text.Join(ExprStrings(args), ",") + ")";
    == { CallArgumentsRendering(); }
      "add" + "(" + Text.Join(["a", "(b[1])"], ",") + ")";
    == { assert Text.Join(["a", "(b[1])"], ",") == "a" + "," + Text.Join(["(b[1])"], ","); }
      "add(a,(b[1]))";
    }
  }

  /** The arguments `a, b[1]` print as `a` and `(b[1])`. */
  lemma CallArgumentsRendering()
    ensures ExprStrings([Ident("a"), Index("[", Ident("b"), IntLit("1", 1))]) == ["a", "(b[1])"]
  {
    assert Text.Decimal(1) == "1";
    assert ExprString(Index("[", Ident("b"), IntLit("1", 1))) == "(b[1])";
  }

  /** A call prints as its callee, then its arguments comma-separated in parentheses. */
  lemma CallRendering(t: string, f: Expr, args: seq<Expr>)
    ensures ExprString(Call(t, f, args)) == ExprString(f) + "(" + Text.Join(ExprStrings(args), ",") + ")"
  {
  }

  lemma GoldenProgramRendering()
    ensures StmtsString([ExprStmt("a", Infix("+", Ident("a"), "+", Ident("b"))),
                         ExprStmt("b", Infix("/", Ident("b"), "/", Ident("c")))]) == "(a+b)(b/c)"
  {
    var s1 := ExprStmt("a", Infix("+", Ident("a"), "+", Ident("b")));
    var s2 := ExprStmt("b", Infix("/", Ident("b"), "/", Ident("c")));
    assert StmtString(s1) == "(a+b)";
    assert StmtString(s2) == "(b/c)";
    assert StmtsString([s2]) == "(b/c)";
    assert [s1, s2][1..] == [s2];
  }
}
