/**
 * The tree-walking evaluator of eval/eval.go. Evaluation threads the scope
 * store: `let` rebinds a name in the current scope, a call creates the
 * callee's scope, and a string comparison allocates a Boolean. `fuel` bounds
 * the number of nested function calls and `eval`/`unquote` re-evaluations;
 * when it runs out the outcome is `Exhausted`.
 */
module Evaluator {
  import opened Wrappers
  import opened GoInt
  import Text
  import opened Ast
  import opened Object
  import opened Env
  import Modify
  import Builtins
  import opened Operators

  /** The error for a node kind the evaluator has no case for, named by Go's `%T`. */
  function Unsupported(kind: string): string
  {
    "unsupported object type: " + kind + "\n"
  }

  const EvalArity := "eval should and only should have one argument\n"
  const QuoteArity := "quote should and only should have one argument\n"

  /** The Go runtime panic of indexing a slice of length `len` at `i`. */
  function IndexOutOfRange(i: nat, len: nat): string
  {
    "runtime error: index out of range [" + Text.Decimal(i) + "] with length " + Text.Decimal(len)
  }

  /** `evalIdentifier`: the scope chain first, then the builtins. */
  function EvalIdent(name: string, env: ScopeRef, st: Store): (r: Outcome<Value>)
    ensures Lookup(st, env, name).Some? ==> r == Ok(Lookup(st, env, name).value)
    ensures Lookup(st, env, name).None? && name in Builtins.Registry ==> r == Ok(Builtin(Builtins.Registry[name]))
    ensures Lookup(st, env, name).None? && name !in Builtins.Registry ==> r == Err("undefined identifier: " + name + "\n")
  {
    match Lookup(st, env, name)
    case Some(v) => Ok(v)
    case None =>
      if name in Builtins.Registry then Ok(Builtin(Builtins.Registry[name]))
      else Err("undefined identifier: " + name + "\n")
  }

  /** The parameter bindings of a call: `newEnv.Set(params[i], args[i])` in order. */
  function Bind(st: Store, c: ScopeRef, ps: seq<string>, args: seq<Value>): (st': Store)
    requires c < |st.scopes| && |ps| <= |args|
    ensures |st'.scopes| == |st.scopes| && st'.allocations == st.allocations
    ensures forall r | 0 <= r < |st.scopes| && r != c :: st'.scopes[r] == st.scopes[r]
    ensures st'.scopes[c].outer == st.scopes[c].outer
    decreases |ps|
  {
    if ps == [] then st else Bind(Define(st, c, ps[0], args[0]), c, ps[1..], args[1..])
  }

  /** A block's or a function's result with its `ReturnValue` wrapper removed, as a call and a program do. */
  function Unwrap(r: Outcome<Value>): (u: Outcome<Value>)
    ensures r.Ok? && r.value.ReturnValue? ==> u == Ok(r.value.inner)
    ensures !(r.Ok? && r.value.ReturnValue?) ==> u == r
  {
    if r.Ok? && r.value.ReturnValue? then Ok(r.value.inner) else r
  }

  // ---------------------------------------------------------------------------
  // Eval

  /** `Eval` of an expression node. */
  function EvalExpr(e: Expr, env: ScopeRef, st: Store, fuel: nat): (r: (Outcome<Value>, Store))
    ensures Preserves(st, r.1, env)
    decreases fuel, ExprSize(e), 2
  {
    match e
    case Ident(name) => (EvalIdent(name, env, st), st)
    case IntLit(_, v) => (Ok(Integer(v)), st)
    case BoolLit(_, b) => (Ok(BoolToBoolean(b)), st)
    case NullLit(_) => (Ok(Null), st)
    case StrLit(_, s) => (Ok(Str(s)), st)
    case Prefix(_, op, rhs) =>
      var (v, st1) := EvalExpr(rhs, env, st, fuel);
      if !v.Ok? then (v.Forward(), st1) else (EvalPrefix(op, v.value), st1)
    case Infix(_, lhs, op, rhs) =>
      var (l, st1) := EvalExpr(lhs, env, st, fuel);
      if !l.Ok? then (l.Forward(), st1) else
      var (r, st2) := EvalExpr(rhs, env, st1, fuel);
      if !r.Ok? then (r.Forward(), st2) else
      var (v, n) := EvalInfix(op, l.value, r.value, st2.allocations);
      (v, st2.(allocations := n))
    case If(_, _, _, _) => EvalIf(e, env, st, fuel)
    case FnLit(_, ps, body) => (Ok(Function(ps, body, env)), st)
    case MacroLit(_, _, _) => (Err(Unsupported("*ast.MacroLiteral")), st)
    case Call(_, _, _) => EvalCall(e, env, st, fuel)
    case ArrayLit(_, es) =>
      var (vs, st1) := EvalExprs(es, env, st, fuel);
      if !vs.Ok? then (vs.Forward(), st1) else (Ok(Array(vs.value)), st1)
    case HashLit(_, ps) =>
      var (es, st1) := EvalPairs(ps, env, st, fuel, []);
      if !es.Ok? then (es.Forward(), st1) else (Ok(Hash(es.value)), st1)
    case Index(_, l, i) =>
      var (lv, st1) := EvalExpr(l, env, st, fuel);
      if !lv.Ok? then (lv.Forward(), st1) else
      var (iv, st2) := EvalExpr(i, env, st1, fuel);
      if !iv.Ok? then (iv.Forward(), st2) else (EvalIndex(lv.value, iv.value), st2)
  }

  /** `evalIfElse`: the condition, then the consequence when it is true, else the alternative or NULL. */
  function EvalIf(e: Expr, env: ScopeRef, st: Store, fuel: nat): (r: (Outcome<Value>, Store))
    requires e.If?
    ensures Preserves(st, r.1, env)
    decreases fuel, ExprSize(e), 1
  {
    var If(_, c, b, alt) := e;
    var (cv, st1) := EvalExpr(c, env, st, fuel);
    assert BlockSize(b) == 1 + StmtsSize(b.stmts);
    assert alt.Some? ==> BlockSize(alt.value) == 1 + StmtsSize(alt.value.stmts);
    if !cv.Ok? then (cv.Forward(), st1)
    else if IsTrue(cv.value) then BlockFrom(b.stmts, env, st1, fuel, Nil)
    else if alt.Some? then BlockFrom(alt.value.stmts, env, st1, fuel, Nil)
    else (Ok(Null), st1)
  }

  /**
   * `Eval` of a call: `eval(x)` and `quote(x)` are recognised by the callee's
   * token; otherwise the callee, then the arguments left to right, then the call.
   */
  function EvalCall(e: Expr, env: ScopeRef, st: Store, fuel: nat): (r: (Outcome<Value>, Store))
    requires e.Call?
    ensures Preserves(st, r.1, env)
    decreases fuel, ExprSize(e), 1
  {
    var Call(_, callee, args) := e;
    assert args != [] ==> ExprsSize(args) == ExprSize(args[0]) + ExprsSize(args[1..]);
    if ExprTokenLiteral(callee) == "eval" then
      if |args| != 1 then (Err(EvalArity), st) else EvalLiteral(args[0], env, st, fuel)
    else if ExprTokenLiteral(callee) == "quote" then
      if |args| != 1 then (Err(QuoteArity), st) else QuoteNode(args[0], env, st, fuel)
    else
      var (f, st1) := EvalExpr(callee, env, st, fuel);
      if !f.Ok? then (f.Forward(), st1) else
      var (vs, st2) := EvalExprs(args, env, st1, fuel);
      if !vs.Ok? then (vs.Forward(), st2) else
      CallFunction(f.value, vs.value, st2, fuel)
  }

  /**
   * `Eval` of a statement: `let` binds in the current scope and yields NULL;
   * `return` wraps its value; reading the value of a nil let panics.
   */
  function EvalStmt(s: Stmt, env: ScopeRef, st: Store, fuel: nat): (r: (Outcome<Value>, Store))
    ensures Preserves(st, r.1, env)
    decreases fuel, StmtSize(s), 2
  {
    match s
    case Let(_, name, None) => (Err(Unsupported("<nil>")), st)
    case Let(_, name, Some(e)) =>
      var (v, st1) := EvalExpr(e, env, st, fuel);
      if !v.Ok? then (v.Forward(), st1)
      else if env < |st1.scopes| then (Ok(Null), Define(st1, env, name, v.value))
      else (Panic(NilDereference), st1)
    case Return(_, e) =>
      var (v, st1) := EvalExpr(e, env, st, fuel);
      if !v.Ok? then (v.Forward(), st1) else (Ok(ReturnValue(v.value)), st1)
    case ExprStmt(_, e) => EvalExpr(e, env, st, fuel)
    case NilLet => (Panic(NilDereference), st)
  }

  /**
   * `evalBlockStatements` on the statements still to run, `res` being the
   * result of the last one run: stops at the first failure and at the first
   * `ReturnValue`, which it returns still wrapped.
   */
  function BlockFrom(ss: seq<Stmt>, env: ScopeRef, st: Store, fuel: nat, res: Value): (r: (Outcome<Value>, Store))
    ensures Preserves(st, r.1, env)
    decreases fuel, StmtsSize(ss), 3
  {
    if ss == [] then (Ok(res), st) else
    var (v, st1) := EvalStmt(ss[0], env, st, fuel);
    if !v.Ok? then (v.Forward(), st1)
    else if v.value.ReturnValue? then (Ok(v.value), st1)
    else BlockFrom(ss[1..], env, st1, fuel, v.value)
  }

  /** `evalExpressions`: left to right; an error is prefixed with the failing expression's rendering. */
  function EvalExprs(es: seq<Expr>, env: ScopeRef, st: Store, fuel: nat): (r: (Outcome<seq<Value>>, Store))
    ensures Preserves(st, r.1, env)
    ensures r.0.Ok? ==> |r.0.value| == |es|
    ensures r.0.Err? ==> "passing exp error: [" <= r.0.msg
    decreases fuel, ExprsSize(es), 3
  {
    if es == [] then (Ok([]), st) else
    var (v, st1) := EvalExpr(es[0], env, st, fuel);
    if v.Err? then (Err("passing exp error: [" + ExprString(es[0]) + "]" + v.msg), st1)
    else if !v.Ok? then (v.Forward(), st1) else
    var (vs, st2) := EvalExprs(es[1..], env, st1, fuel);
    if !vs.Ok? then (vs.Forward(), st2) else (Ok([v.value] + vs.value), st2)
  }

  /** `evalHashLiteral`: each key, its hashability, then its value, put into the entries built so far. */
  function EvalPairs(ps: seq<Pair>, env: ScopeRef, st: Store, fuel: nat, acc: seq<HashEntry>): (r: (Outcome<seq<HashEntry>>, Store))
    ensures Preserves(st, r.1, env)
    decreases fuel, PairsSize(ps), 3
  {
    if ps == [] then (Ok(acc), st) else
    assert PairsSize(ps) == ExprSize(ps[0].key) + ExprSize(ps[0].value) + PairsSize(ps[1..]);
    var (k, st1) := EvalExpr(ps[0].key, env, st, fuel);
    if k.Err? then (Err("eval key: " + ExprString(ps[0].key) + " err: " + k.msg + "\n"), st1)
    else if !k.Ok? then (k.Forward(), st1)
    else if k.value.Nil? then (Panic(NilDereference), st1)
    else if !Hashable(k.value) then (Err(Type(k.value) + " is not hashable\n"), st1) else
    var (v, st2) := EvalExpr(ps[0].value, env, st1, fuel);
    if v.Err? then (Err("eval key: " + ExprString(ps[0].key) + " err: " + v.msg + "\n"), st2)
    else if !v.Ok? then (v.Forward(), st2)
    else EvalPairs(ps[1..], env, st2, fuel, Put(acc, HashEntry(HashKeyOf(k.value), k.value, v.value)))
  }

  /**
   * `callFunction`: a function runs its body in a new scope under the one it
   * captured, with parameter i bound to argument i (too few arguments is an
   * index panic); its result is unwrapped. A builtin is applied; anything else
   * is not callable. The caller's scopes are left as they were.
   */
  function CallFunction(f: Value, args: seq<Value>, st: Store, fuel: nat): (r: (Outcome<Value>, Store))
    ensures Preserves(st, r.1, |st.scopes|)
    decreases fuel, 0, 0
  {
    match f
    case Function(ps, body, fenv) =>
      if fuel == 0 then (Exhausted, st) else
      var (st1, c) := NewScope(st, fenv);
      if |args| < |ps| then (Panic(IndexOutOfRange(|args|, |args|)), st1) else
      var (v, st2) := BlockFrom(body.stmts, c, Bind(st1, c, ps, args), fuel - 1, Nil);
      (Unwrap(v), st2)
    case Builtin(b) => (Builtins.Apply(b, args), st)
    case _ =>
      match Shown(f)
      case Ok(s) => (Err(s + " is not callable"), st)
      case _ => (Panic(NilDereference), st)
  }

  /** `evalLiteral`: the argument must evaluate to a quote, whose node is then evaluated. */
  function EvalLiteral(arg: Expr, env: ScopeRef, st: Store, fuel: nat): (r: (Outcome<Value>, Store))
    ensures Preserves(st, r.1, env)
    decreases fuel, ExprSize(arg), 3
  {
    var (q, st1) := EvalExpr(arg, env, st, fuel);
    if !q.Ok? then (q.Forward(), st1)
    // the error message renders the nil `*Quote` the failed assertion left
    else if !q.value.Quote? then (Panic(NilDereference), st1)
    else if fuel == 0 then (Exhausted, st1)
    else EvalExpr(q.value.node, env, st1, fuel - 1)
  }

  /**
   * `quote`: the argument, unevaluated, with every unquote site in it replaced
   * by the node its argument's value converts to.
   */
  function QuoteNode(arg: Expr, env: ScopeRef, st: Store, fuel: nat): (r: (Outcome<Value>, Store))
    ensures Preserves(st, r.1, env)
    decreases fuel, ExprSize(arg), 3
  {
    var f := Unquoter(env, fuel);
    var (n, st1) := Modify.ModifyExpr(arg, f, st);
    PreservesKept(env);
    Modify.KeepsExpr(arg, f, st, (a: Store, b: Store) => Preserves(a, b, env));
    if !n.Ok? then (n.Forward(), st1)
    else if n.value.None? then (Err("evalUnquote in quote err: " + ExprString(arg)), st1)
    else (Ok(Quote(n.value.value)), st1)
  }

  /** The modifier `evalUnquote` hands to `Modify`, evaluating under `env`. */
  function Unquoter(env: ScopeRef, fuel: nat): (f: Modify.Modifier<Store>)
    ensures Modify.Keeps(f, (a: Store, b: Store) => Preserves(a, b, env))
    decreases fuel, 0, 1
  {
    (x: Expr, s: Store) => UnquoteAt(x, env, s, fuel)
  }

  /**
   * The modifier of `evalUnquote`: an unquote site becomes the node its
   * argument's value converts to, or nil when evaluating or converting fails
   * with an error; every other node stays.
   */
  function UnquoteAt(x: Expr, env: ScopeRef, s: Store, fuel: nat): (r: (Outcome<Option<Expr>>, Store))
    ensures Preserves(s, r.1, env)
    decreases fuel, 0, 0
  {
    if !IsUnquote(x) then (Ok(Some(x)), s)
    else if fuel == 0 then (Exhausted, s) else
    var (v, s1) := EvalExpr(x.args[0], env, s, fuel - 1);
    if v.Err? then (Ok(None), s1)
    else if !v.Ok? then (v.Forward(), s1)
    else match NewAstNode(v.value)
      case Ok(n) => (Ok(Some(n)), s1)
      case Err(_) => (Ok(None), s1)
      case Panic(p) => (Panic(p), s1)
      case Exhausted => (Exhausted, s1)
  }

  lemma PreservesKept(env: ScopeRef)
    ensures Modify.PreOrder((a: Store, b: Store) => Preserves(a, b, env))
  {
  }

  /**
   * `evalProgram` on the statements still to run: like a block, but the first
   * `ReturnValue` ends the program with its inner value.
   */
  function ProgramFrom(ss: seq<Stmt>, env: ScopeRef, st: Store, fuel: nat, res: Value): (r: (Outcome<Value>, Store))
    ensures Preserves(st, r.1, env)
    decreases |ss|
  {
    if ss == [] then (Ok(res), st) else
    var (v, st1) := EvalStmt(ss[0], env, st, fuel);
    if !v.Ok? then (v.Forward(), st1)
    else if v.value.ReturnValue? then (Ok(v.value.inner), st1)
    else ProgramFrom(ss[1..], env, st1, fuel, v.value)
  }

  // ---------------------------------------------------------------------------
  // The loops of eval/eval.go

  /** `evalProgram`: the statement loop with its early exits, equal to `ProgramFrom` from no result. */
  method EvalProgram(p: Program, env: ScopeRef, st: Store, fuel: nat) returns (r: Outcome<Value>, st': Store)
    ensures (r, st') == ProgramFrom(p.statements, env, st, fuel, Nil)
  {
    var ss := p.statements;
    var res := Nil;
    st' := st;
    var i := 0;
    assert ss[0..] == ss;
    while i < |ss|
      invariant 0 <= i <= |ss|
      invariant ProgramFrom(ss, env, st, fuel, Nil) == ProgramFrom(ss[i..], env, st', fuel, res)
    {
      assert ss[i..][0] == ss[i] && ss[i..][1..] == ss[i + 1..];
      var v, st1 := EvalStmt(ss[i], env, st', fuel).0, EvalStmt(ss[i], env, st', fuel).1;
      if !v.Ok? {
        return v.Forward(), st1;
      }
      if v.value.ReturnValue? {
        return Ok(v.value.inner), st1;
      }
      res, st' := v.value, st1;
      i := i + 1;
    }
    assert ss[i..] == [];
    r := Ok(res);
  }

  /** `evalBlockStatements`: the statement loop with its early exits, equal to `BlockFrom` from no result. */
  method EvalBlockStatements(ss: seq<Stmt>, env: ScopeRef, st: Store, fuel: nat) returns (r: Outcome<Value>, st': Store)
    ensures (r, st') == BlockFrom(ss, env, st, fuel, Nil)
  {
    var res := Nil;
    st' := st;
    var i := 0;
    assert ss[0..] == ss;
    while i < |ss|
      invariant 0 <= i <= |ss|
      invariant BlockFrom(ss, env, st, fuel, Nil) == BlockFrom(ss[i..], env, st', fuel, res)
    {
      assert ss[i..][0] == ss[i] && ss[i..][1..] == ss[i + 1..];
      var v, st1 := EvalStmt(ss[i], env, st', fuel).0, EvalStmt(ss[i], env, st', fuel).1;
      if !v.Ok? {
        return v.Forward(), st1;
      }
      if v.value.ReturnValue? {
        return v, st1;
      }
      res, st' := v.value, st1;
      i := i + 1;
    }
    assert ss[i..] == [];
    r := Ok(res);
  }

  /** `evalExpressions`: appends each value in turn, equal to `EvalExprs`. */
  method EvalExpressions(es: seq<Expr>, env: ScopeRef, st: Store, fuel: nat) returns (r: Outcome<seq<Value>>, st': Store)
    ensures (r, st') == EvalExprs(es, env, st, fuel)
  {
    var res: seq<Value> := [];
    st' := st;
    var i := 0;
    assert es[0..] == es;
    var whole := EvalExprs(es, env, st, fuel);
    if whole.0.Ok? {
      assert [] + whole.0.value == whole.0.value;
    }
    while i < |es|
      invariant 0 <= i <= |es|
      invariant EvalExprs(es, env, st, fuel) == Prepend(res, EvalExprs(es[i..], env, st', fuel))
    {
      assert es[i..][0] == es[i] && es[i..][1..] == es[i + 1..];
      var v, st1 := EvalExpr(es[i], env, st', fuel).0, EvalExpr(es[i], env, st', fuel).1;
      if v.Err? {
        return Err("passing exp error: [" + ExprString(es[i]) + "]" + v.msg), st1;
      }
      if !v.Ok? {
        return v.Forward(), st1;
      }
      PrependPrepend(res, v.value, EvalExprs(es[i + 1..], env, st1, fuel));
      res, st' := res + [v.value], st1;
      i := i + 1;
    }
    assert es[i..] == [];
    assert res + [] == res;
    r := Ok(res);
  }

  /** Values evaluated before the rest, in front of the rest's outcome. */
  function Prepend(done: seq<Value>, r: (Outcome<seq<Value>>, Store)): (Outcome<seq<Value>>, Store)
  {
    if r.0.Ok? then (Ok(done + r.0.value), r.1) else r
  }

  lemma PrependPrepend(done: seq<Value>, v: Value, r: (Outcome<seq<Value>>, Store))
    ensures Prepend(done, if r.0.Ok? then (Ok([v] + r.0.value), r.1) else (r.0.Forward(), r.1))
      == Prepend(done + [v], r)
  {
    if r.0.Ok? {
      assert done + ([v] + r.0.value) == (done + [v]) + r.0.value;
    } else {
      assert r.0.Forward() == r.0;
    }
  }

  /** `evalHashLiteral`: fills the entries pair by pair, equal to `EvalPairs` from no entries. */
  method EvalHashLiteral(ps: seq<Pair>, env: ScopeRef, st: Store, fuel: nat) returns (r: Outcome<seq<HashEntry>>, st': Store)
    ensures (r, st') == EvalPairs(ps, env, st, fuel, [])
  {
    var pairs: seq<HashEntry> := [];
    st' := st;
    var i := 0;
    assert ps[0..] == ps;
    while i < |ps|
      invariant 0 <= i <= |ps|
      invariant EvalPairs(ps, env, st, fuel, []) == EvalPairs(ps[i..], env, st', fuel, pairs)
    {
      assert ps[i..][0] == ps[i] && ps[i..][1..] == ps[i + 1..];
      var key := ps[i].key;
      var k, st1 := EvalExpr(key, env, st', fuel).0, EvalExpr(key, env, st', fuel).1;
      if k.Err? {
        return Err("eval key: " + ExprString(key) + " err: " + k.msg + "\n"), st1;
      }
      if !k.Ok? {
        return k.Forward(), st1;
      }
      if k.value.Nil? {
        return Panic(NilDereference), st1;
      }
      if !Hashable(k.value) {
        return Err(Type(k.value) + " is not hashable\n"), st1;
      }
      var v, st2 := EvalExpr(ps[i].value, env, st1, fuel).0, EvalExpr(ps[i].value, env, st1, fuel).1;
      if v.Err? {
        return Err("eval key: " + ExprString(key) + " err: " + v.msg + "\n"), st2;
      }
      if !v.Ok? {
        return v.Forward(), st2;
      }
      pairs := Put(pairs, HashEntry(HashKeyOf(k.value), k.value, v.value));
      st' := st2;
      i := i + 1;
    }
    assert ps[i..] == [];
    r := Ok(pairs);
  }

  /** The binding loop of `callFunction`: panics at the first parameter without an argument. */
  method BindParameters(st: Store, c: ScopeRef, ps: seq<string>, args: seq<Value>) returns (r: Outcome<Store>)
    requires c < |st.scopes|
    ensures |args| < |ps| ==> r == Panic(IndexOutOfRange(|args|, |args|))
    ensures |ps| <= |args| ==> r == Ok(Bind(st, c, ps, args))
  {
    var cur := st;
    var i := 0;
    assert ps[0..] == ps && args[0..] == args;
    while i < |ps|
      invariant 0 <= i <= |ps| && i <= |args| && |cur.scopes| == |st.scopes|
      invariant |ps| <= |args| ==> Bind(st, c, ps, args) == Bind(cur, c, ps[i..], args[i..])
    {
      if i >= |args| {
        return Panic(IndexOutOfRange(i, |args|));
      }
      assert ps[i..][0] == ps[i] && ps[i..][1..] == ps[i + 1..];
      assert args[i..][0] == args[i] && args[i..][1..] == args[i + 1..];
      cur := Define(cur, c, ps[i], args[i]);
      i := i + 1;
    }
    assert ps[i..] == [];
    return Ok(cur);
  }

  // ---------------------------------------------------------------------------
  // Properties

  /** A program is a block whose `ReturnValue` is unwrapped once at the end. */
  lemma {:induction false} ProgramIsUnwrappedBlock(ss: seq<Stmt>, env: ScopeRef, st: Store, fuel: nat, res: Value)
    requires !res.ReturnValue?
    ensures var (b, bst) := BlockFrom(ss, env, st, fuel, res);
      ProgramFrom(ss, env, st, fuel, res) == (Unwrap(b), bst)
    decreases |ss|
  {
    if ss != [] {
      var (v, st1) := EvalStmt(ss[0], env, st, fuel);
      if v.Ok? && !v.value.ReturnValue? {
        ProgramIsUnwrappedBlock(ss[1..], env, st1, fuel, v.value);
      }
    }
  }

  /**
   * Running `a + b` runs `a`, and runs `b` after it only when `a` neither
   * failed nor returned: the first error and the first `return` end a block.
   */
  lemma {:induction false} BlockSequence(a: seq<Stmt>, b: seq<Stmt>, env: ScopeRef, st: Store, fuel: nat, res: Value)
    requires !res.ReturnValue?
    ensures BlockFrom(a + b, env, st, fuel, res) ==
      var (v, st1) := BlockFrom(a, env, st, fuel, res);
      if v.Ok? && !v.value.ReturnValue? then BlockFrom(b, env, st1, fuel, v.value) else (v, st1)
    decreases |a|
  {
    if a == [] {
      assert a + b == b;
    } else {
      assert (a + b)[0] == a[0] && (a + b)[1..] == a[1..] + b;
      var (v, st1) := EvalStmt(a[0], env, st, fuel);
      if v.Ok? && !v.value.ReturnValue? {
        BlockSequence(a[1..], b, env, st1, fuel, v.value);
      }
    }
  }

  /** `let` yields NULL, binds the name in the current scope, and leaves every other name's binding alone. */
  lemma LetBindsInCurrentScope(t: string, name: string, e: Expr, env: ScopeRef, st: Store, fuel: nat, other: string, r: ScopeRef)
    requires env < |st.scopes| && EvalExpr(e, env, st, fuel).0.Ok?
    ensures var (v, st1) := EvalExpr(e, env, st, fuel);
      var (res, st2) := EvalStmt(Let(t, name, Some(e)), env, st, fuel);
      res == Ok(Null) && Lookup(st2, env, name) == Some(v.value)
      && (other != name ==> Lookup(st2, r, other) == Lookup(st1, r, other))
  {
    var (v, st1) := EvalExpr(e, env, st, fuel);
    DefineThenLookup(st1, env, name, v.value);
    if other != name {
      DefineKeepsOtherNames(st1, env, name, v.value, r, other);
    }
  }

  /** Binding parameters never changes what a name outside the parameter list resolves to. */
  lemma {:induction false} BindKeepsOthers(st: Store, c: ScopeRef, ps: seq<string>, args: seq<Value>, x: string, r: ScopeRef)
    requires c < |st.scopes| && |ps| <= |args| && x !in ps
    ensures Lookup(Bind(st, c, ps, args), r, x) == Lookup(st, r, x)
    decreases |ps|
  {
    if ps != [] {
      DefineKeepsOtherNames(st, c, ps[0], args[0], r, x);
      BindKeepsOthers(Define(st, c, ps[0], args[0]), c, ps[1..], args[1..], x, r);
    }
  }

  /** A parameter resolves to the argument at its last position in the parameter list. */
  lemma {:induction false} BindLastWins(st: Store, c: ScopeRef, ps: seq<string>, args: seq<Value>, i: nat)
    requires c < |st.scopes| && |ps| <= |args| && i < |ps| && ps[i] !in ps[i + 1..]
    ensures Lookup(Bind(st, c, ps, args), c, ps[i]) == Some(args[i])
    decreases |ps|
  {
    var st1 := Define(st, c, ps[0], args[0]);
    if i == 0 {
      BindKeepsOthers(st1, c, ps[1..], args[1..], ps[0], c);
      DefineThenLookup(st, c, ps[0], args[0]);
    } else {
      assert ps[1..][i - 1] == ps[i] && ps[1..][i..] == ps[i + 1..];
      BindLastWins(st1, c, ps[1..], args[1..], i - 1);
    }
  }

  /**
   * The scope a call runs its body in: parameters resolve to their arguments,
   * every other name to what it resolves to in the scope the function
   * captured.
   */
  lemma CallScope(ps: seq<string>, fenv: ScopeRef, args: seq<Value>, st: Store, x: string, i: nat)
    requires Valid(st) && fenv < |st.scopes| && |ps| <= |args|
    ensures var (st1, c) := NewScope(st, fenv);
      var st2 := Bind(st1, c, ps, args);
      (x !in ps ==> Lookup(st2, c, x) == Lookup(st, fenv, x))
      && (i < |ps| && ps[i] !in ps[i + 1..] ==> Lookup(st2, c, ps[i]) == Some(args[i]))
  {
    var (st1, c) := NewScope(st, fenv);
    if x !in ps {
      BindKeepsOthers(st1, c, ps, args, x, c);
      NewScopeFallsThrough(st, fenv, x);
    }
    if i < |ps| && ps[i] !in ps[i + 1..] {
      BindLastWins(st1, c, ps, args, i);
    }
  }

  /** An integer or a Boolean singleton spliced in by `unquote` evaluates back to itself. */
  lemma ConvertedValuesEvaluateBack(v: Value, env: ScopeRef, st: Store, fuel: nat)
    requires v.Integer? || v == TRUE || v == FALSE
    ensures NewAstNode(v).Ok? && EvalExpr(NewAstNode(v).value, env, st, fuel) == (Ok(v), st)
  {
  }

  /** `quote` of a node without unquote sites (and without nil slots) is that node, untouched. */
  lemma QuoteWithoutUnquote(t: string, callee: Expr, arg: Expr, env: ScopeRef, st: Store, fuel: nat)
    requires ExprTokenLiteral(callee) == "quote"
    requires Modify.Modifiable(arg) && forall x <- Modify.Leaves(arg) :: !IsUnquote(x)
    ensures EvalExpr(Call(t, callee, [arg]), env, st, fuel) == (Ok(Quote(arg)), st)
  {
    var f := Unquoter(env, fuel);
    forall x <- Modify.Leaves(arg)
      ensures Modify.Fixes(f, x, st)
    {
      assert f(x, st) == UnquoteAt(x, env, st, fuel);
    }
    Modify.FixedExpr(arg, f, st);
    QuoteCall(t, callee, arg, env, st, fuel);
  }

  /**
   * Once its condition evaluates, an `if` runs the consequence when the value
   * is true, else the alternative, else yields NULL, all in the store the
   * condition left.
   */
  lemma IfTakesBranch(t: string, c: Expr, b: Block, alt: Option<Block>, env: ScopeRef, st: Store, fuel: nat)
    requires EvalExpr(c, env, st, fuel).0.Ok?
    ensures var (cv, st1) := EvalExpr(c, env, st, fuel);
      EvalExpr(If(t, c, b, alt), env, st, fuel)
      == if IsTrue(cv.value) then BlockFrom(b.stmts, env, st1, fuel, Nil)
         else if alt.Some? then BlockFrom(alt.value.stmts, env, st1, fuel, Nil)
         else (Ok(Null), st1)
  {
    var e := If(t, c, b, alt);
    EvalIfNode(e, env, st, fuel);
    var (cv, st1) := EvalExpr(c, env, st, fuel);
    assert EvalIf(e, env, st, fuel)
      == if IsTrue(cv.value) then BlockFrom(b.stmts, env, st1, fuel, Nil)
         else if alt.Some? then BlockFrom(alt.value.stmts, env, st1, fuel, Nil)
         else (Ok(Null), st1);
  }

  /** A call node is evaluated by `EvalCall`. */
  lemma EvalCallNode(e: Expr, env: ScopeRef, st: Store, fuel: nat)
    requires e.Call?
    ensures EvalExpr(e, env, st, fuel) == EvalCall(e, env, st, fuel)
  {
  }

  /** `quote(arg)` is the quote of `arg` with its unquote sites replaced. */
  lemma QuoteCall(t: string, callee: Expr, arg: Expr, env: ScopeRef, st: Store, fuel: nat)
    requires ExprTokenLiteral(callee) == "quote"
    ensures EvalExpr(Call(t, callee, [arg]), env, st, fuel) == QuoteNode(arg, env, st, fuel)
  {
    EvalCallNode(Call(t, callee, [arg]), env, st, fuel);
  }

  /**
   * A closure called with at least as many arguments as parameters runs its
   * body, one unit of fuel lower, in a new scope under the captured one where
   * the parameters are bound; the body's return value is unwrapped.
   */
  lemma CallRunsBody(ps: seq<string>, body: Block, fenv: ScopeRef, args: seq<Value>, st: Store, fuel: nat)
    requires fuel > 0 && |ps| <= |args|
    ensures var (st1, c) := NewScope(st, fenv);
      var (v, st2) := BlockFrom(body.stmts, c, Bind(st1, c, ps, args), fuel - 1, Nil);
      CallFunction(Function(ps, body, fenv), args, st, fuel) == (Unwrap(v), st2)
  {
  }

  /**
   * The outcomes of a call other than running a body: a builtin is applied to
   * the arguments, a function given too few arguments panics on the first
   * missing one, and any other object is not callable, its `Inspect()` named
   * in the error (or a nil dereference when it cannot be shown).
   */
  lemma CallOutcomes(f: Value, args: seq<Value>, st: Store, fuel: nat)
    ensures f.Builtin? ==> CallFunction(f, args, st, fuel) == (Builtins.Apply(f.builtin, args), st)
    ensures f.Function? && fuel > 0 && |args| < |f.params| ==>
      CallFunction(f, args, st, fuel).0 == Panic(IndexOutOfRange(|args|, |args|))
    ensures f.Function? && fuel == 0 ==> CallFunction(f, args, st, fuel) == (Exhausted, st)
    ensures !f.Function? && !f.Builtin? && !ContainsNil(f) ==>
      CallFunction(f, args, st, fuel) == (Err(Inspect(f) + " is not callable"), st)
    ensures !f.Function? && !f.Builtin? && ContainsNil(f) ==>
      CallFunction(f, args, st, fuel) == (Panic(NilDereference), st)
  {
  }

  /**
   * `eval(arg)`: the argument is evaluated, and the node of the quote it
   * yields is evaluated in the same scope, one unit of fuel lower; a value
   * that is not a quote panics, and a failure of the argument is passed on.
   */
  lemma EvalCallRule(t: string, callee: Expr, arg: Expr, env: ScopeRef, st: Store, fuel: nat)
    requires ExprTokenLiteral(callee) == "eval"
    ensures var (q, st1) := EvalExpr(arg, env, st, fuel);
      var r := EvalExpr(Call(t, callee, [arg]), env, st, fuel);
      (q.Ok? && q.value.Quote? && fuel > 0 ==> r == EvalExpr(q.value.node, env, st1, fuel - 1))
      && (q.Ok? && !q.value.Quote? ==> r == (Panic(NilDereference), st1))
      && (!q.Ok? ==> r == (q.Forward(), st1))
  {
    EvalCallNode(Call(t, callee, [arg]), env, st, fuel);
  }

  /**
   * Each hash key is checked once evaluated: a nil key object panics on its
   * `HashKey()` method, and an unhashable one stops the literal with an error.
   */
  lemma HashKeyChecked(ps: seq<Pair>, env: ScopeRef, st: Store, fuel: nat, acc: seq<HashEntry>)
    requires ps != []
    ensures var (k, st1) := EvalExpr(ps[0].key, env, st, fuel);
      (k == Ok(Nil) ==> EvalPairs(ps, env, st, fuel, acc) == (Panic(NilDereference), st1))
      && (k.Ok? && !k.value.Nil? && !Hashable(k.value) ==>
            EvalPairs(ps, env, st, fuel, acc) == (Err(Type(k.value) + " is not hashable\n"), st1))
  {
  }

  /** An `if` node is evaluated by `EvalIf`. */
  lemma EvalIfNode(e: Expr, env: ScopeRef, st: Store, fuel: nat)
    requires e.If?
    ensures EvalExpr(e, env, st, fuel) == EvalIf(e, env, st, fuel)
  {
  }

  // ---------------------------------------------------------------------------
  // Examples

  function Body(e: Expr): Block { Block("{", [ExprStmt("e", e)]) }

  /** A block of one statement evaluates to that statement's outcome. */
  lemma OneStatementBlock(s: Stmt, env: ScopeRef, st: Store, fuel: nat, res: Value)
    ensures BlockFrom([s], env, st, fuel, res) == EvalStmt(s, env, st, fuel)
  {
    assert [s][0] == s && [s][1..] == [];
    var (v, st1) := EvalStmt(s, env, st, fuel);
    if !v.Ok? {
      assert v.Forward<Value>() == v;
    }
  }

  /** Conditions: FALSE is false, and a missing `else` yields NULL. */
  lemma IfFalseExample(st: Store, fuel: nat)
    ensures EvalExpr(If("if", BoolLit("false", false), Body(IntLit("100", 100)), None), 0, st, fuel) == (Ok(Null), st)
  {
    IfTakesBranch("if", BoolLit("false", false), Body(IntLit("100", 100)), None, 0, st, fuel);
  }

  /** Conditions: the integer 0 is true. */
  lemma IfZeroExample(st: Store, fuel: nat)
    ensures EvalExpr(If("if", IntLit("0", 0), Body(IntLit("100", 100)), None), 0, st, fuel) == (Ok(Integer(100)), st)
  {
    IfTakesBranch("if", IntLit("0", 0), Body(IntLit("100", 100)), None, 0, st, fuel);
    OneStatementBlock(ExprStmt("e", IntLit("100", 100)), 0, st, fuel, Nil);
  }

  /** Conditions: a false comparison takes the `else` block. */
  lemma IfElseExample(st: Store, fuel: nat)
    ensures EvalExpr(If("if", Infix("1", IntLit("1", 1), ">", IntLit("2", 2)), Body(IntLit("1", 1)), Some(Body(IntLit("2", 2)))), 0, st, fuel)
      == (Ok(Integer(2)), st)
  {
    var c := Infix("1", IntLit("1", 1), ">", IntLit("2", 2));
    assert EvalExpr(c, 0, st, fuel) == (Ok(FALSE), st);
    IfTakesBranch("if", c, Body(IntLit("1", 1)), Some(Body(IntLit("2", 2))), 0, st, fuel);
    OneStatementBlock(ExprStmt("e", IntLit("2", 2)), 0, st, fuel, Nil);
  }

  /**
   * A string comparison that does not hold still takes the `then` branch: it
   * allocates a new Boolean, which is not the FALSE singleton.
   */
  /** Comparing two string literals with `==` allocates one fresh boolean. */
  lemma StringsCompared(t: string, x: string, y: string, env: ScopeRef, st: Store, fuel: nat)
    ensures EvalExpr(Infix(t, StrLit(x, x), "==", StrLit(y, y)), env, st, fuel)
      == (Ok(Boolean(x == y, Fresh(st.allocations))), st.(allocations := st.allocations + 1))
  {
    assert EvalExpr(StrLit(x, x), env, st, fuel) == (Ok(Str(x)), st);
    assert EvalExpr(StrLit(y, y), env, st, fuel) == (Ok(Str(y)), st);
  }

  lemma StringComparisonConditionExample(st: Store, fuel: nat)
    ensures var c := Infix("a", StrLit("a", "a"), "==", StrLit("b", "b"));
      EvalExpr(If("if", c, Body(IntLit("1", 1)), Some(Body(IntLit("2", 2)))), 0, st, fuel)
      == (Ok(Integer(1)), st.(allocations := st.allocations + 1))
  {
    var c := Infix("a", StrLit("a", "a"), "==", StrLit("b", "b"));
    var st1 := st.(allocations := st.allocations + 1);
    StringsCompared("a", "a", "b", 0, st, fuel);
    IfTakesBranch("if", c, Body(IntLit("1", 1)), Some(Body(IntLit("2", 2))), 0, st, fuel);
    OneStatementBlock(ExprStmt("e", IntLit("1", 1)), 0, st1, fuel, Nil);
  }

  /** The unquote site `unquote(4 + 4)` is replaced by the literal 8. */
  lemma UnquoteSumSite(st: Store, fuel: nat)
    requires fuel > 0
    ensures var site := Call("unquote", Ident("unquote"), [Infix("4", IntLit("4", 4), "+", IntLit("4", 4))]);
      Modify.ModifySlot(site, Unquoter(0, fuel), st) == (Ok(IntLit("8", 8)), st)
  {
    var sum := Infix("4", IntLit("4", 4), "+", IntLit("4", 4));
    var site := Call("unquote", Ident("unquote"), [sum]);
    assert Text.Decimal(8) == "8";
    assert EvalExpr(sum, 0, st, fuel - 1) == (Ok(Integer(8)), st);
    assert Unquoter(0, fuel)(site, st) == UnquoteAt(site, 0, st, fuel) == (Ok(Some(IntLit("8", 8))), st);
  }

  /** `quote(unquote(4 + 4))` is the literal 8. */
  lemma UnquoteWholeExample(st: Store, fuel: nat)
    requires fuel > 0
    ensures var site := Call("unquote", Ident("unquote"), [Infix("4", IntLit("4", 4), "+", IntLit("4", 4))]);
      EvalExpr(Call("quote", Ident("quote"), [site]), 0, st, fuel) == (Ok(Quote(IntLit("8", 8))), st)
  {
    var site := Call("unquote", Ident("unquote"), [Infix("4", IntLit("4", 4), "+", IntLit("4", 4))]);
    UnquoteSumSite(st, fuel);
    QuoteCall("quote", Ident("quote"), site, 0, st, fuel);
  }

  /** `quote(8 + unquote(4 + 4))` is `(8+8)`: only the unquote site changes. */
  lemma UnquoteOperandExample(st: Store, fuel: nat)
    requires fuel > 0
    ensures var site := Call("unquote", Ident("unquote"), [Infix("4", IntLit("4", 4), "+", IntLit("4", 4))]);
      EvalExpr(Call("quote", Ident("quote"), [Infix("8", IntLit("8", 8), "+", site)]), 0, st, fuel)
      == (Ok(Quote(Infix("8", IntLit("8", 8), "+", IntLit("8", 8)))), st)
  {
    var site := Call("unquote", Ident("unquote"), [Infix("4", IntLit("4", 4), "+", IntLit("4", 4))]);
    var f := Unquoter(0, fuel);
    UnquoteSumSite(st, fuel);
    assert f(IntLit("8", 8), st) == UnquoteAt(IntLit("8", 8), 0, st, fuel);
    assert Modify.ModifySlot(IntLit("8", 8), f, st) == (Ok(IntLit("8", 8)), st);
    var arg := Infix("8", IntLit("8", 8), "+", site);
    assert QuoteNode(arg, 0, st, fuel) == (Ok(Quote(Infix("8", IntLit("8", 8), "+", IntLit("8", 8)))), st);
    QuoteCall("quote", Ident("quote"), arg, 0, st, fuel);
  }

  /** `eval(quote(1 + 2))` evaluates the quoted node: 3. */
  lemma EvalQuoteExample(st: Store, fuel: nat)
    requires fuel > 0
    ensures var sum := Infix("1", IntLit("1", 1), "+", IntLit("2", 2));
      EvalExpr(Call("eval", Ident("eval"), [Call("quote", Ident("quote"), [sum])]), 0, st, fuel) == (Ok(Integer(3)), st)
  {
    var sum := Infix("1", IntLit("1", 1), "+", IntLit("2", 2));
    var q := Call("quote", Ident("quote"), [sum]);
    QuoteWithoutUnquote("quote", Ident("quote"), sum, 0, st, fuel);
    assert EvalExpr(sum, 0, st, fuel - 1) == (Ok(Integer(3)), st);
    assert EvalLiteral(q, 0, st, fuel) == (Ok(Integer(3)), st);
    EvalCallNode(Call("eval", Ident("eval"), [q]), 0, st, fuel);
  }

  /** The body `{ x + y; }` of `add`, run where `x` is 1 and `y` is 2, yields 3. */
  lemma AddBodyExample(st: Store, c: ScopeRef, fuel: nat)
    requires Lookup(st, c, "x") == Some(Integer(1)) && Lookup(st, c, "y") == Some(Integer(2))
    ensures BlockFrom(Body(Infix("x", Ident("x"), "+", Ident("y"))).stmts, c, st, fuel, Nil).0 == Ok(Integer(3))
  {
    var s := ExprStmt("e", Infix("x", Ident("x"), "+", Ident("y")));
    assert EvalExpr(Ident("x"), c, st, fuel) == (Ok(Integer(1)), st);
    assert EvalExpr(Ident("y"), c, st, fuel) == (Ok(Integer(2)), st);
    OneStatementBlock(s, c, st, fuel, Nil);
  }

  /** The arguments `(1, 2)` evaluate to the integers 1 and 2. */
  lemma ArgumentsExample(env: ScopeRef, st: Store, fuel: nat)
    ensures EvalExprs([IntLit("1", 1), IntLit("2", 2)], env, st, fuel) == (Ok([Integer(1), Integer(2)]), st)
  {
    var args := [IntLit("1", 1), IntLit("2", 2)];
    assert args[0] == IntLit("1", 1) && args[1..] == [IntLit("2", 2)];
    assert [IntLit("2", 2)][0] == IntLit("2", 2) && [IntLit("2", 2)][1..] == [];
    assert EvalExprs([], env, st, fuel) == (Ok([]), st);
    assert [Integer(2)] + [] == [Integer(2)] && [Integer(1)] + [Integer(2)] == [Integer(1), Integer(2)];
    assert EvalExprs([IntLit("2", 2)], env, st, fuel) == (Ok([Integer(2)]), st);
  }

  /** A closure over a valid scope, called with `(1, 2)`, binds its parameters and returns 3. */
  lemma AddCallExample(fenv: ScopeRef, st: Store, fuel: nat)
    requires Valid(st) && fenv < |st.scopes| && fuel > 0
    ensures CallFunction(Function(["x", "y"], Body(Infix("x", Ident("x"), "+", Ident("y"))), fenv), [Integer(1), Integer(2)], st, fuel).0
      == Ok(Integer(3))
  {
    var ps, args := ["x", "y"], [Integer(1), Integer(2)];
    var (st1, c) := NewScope(st, fenv);
    assert ps[1..] == ["y"] && ps[2..] == [];
    CallScope(ps, fenv, args, st, "x", 0);
    CallScope(ps, fenv, args, st, "y", 1);
    var body := Body(Infix("x", Ident("x"), "+", Ident("y")));
    CallRunsBody(ps, body, fenv, args, st, fuel);
    AddBodyExample(Bind(st1, c, ps, args), c, fuel - 1);
  }

  /** `add(1, 2)`, where `add` names that closure, is 3. */
  lemma AddStatementExample(st: Store, fuel: nat)
    requires Valid(st) && 0 < |st.scopes| && fuel > 0
    requires Lookup(st, 0, "add") == Some(Function(["x", "y"], Body(Infix("x", Ident("x"), "+", Ident("y"))), 0))
    ensures EvalStmt(ExprStmt("add", Call("(", Ident("add"), [IntLit("1", 1), IntLit("2", 2)])), 0, st, fuel).0 == Ok(Integer(3))
  {
    var add := Function(["x", "y"], Body(Infix("x", Ident("x"), "+", Ident("y"))), 0);
    var args := [IntLit("1", 1), IntLit("2", 2)];
    var e := Call("(", Ident("add"), args);
    assert ExprTokenLiteral(Ident("add")) == "add";
    assert EvalExpr(Ident("add"), 0, st, fuel) == (Ok(add), st);
    ArgumentsExample(0, st, fuel);
    EvalCallNode(e, 0, st, fuel);
    assert EvalExpr(e, 0, st, fuel) == CallFunction(add, [Integer(1), Integer(2)], st, fuel);
    AddCallExample(0, st, fuel);
    assert EvalStmt(ExprStmt("add", e), 0, st, fuel) == EvalExpr(e, 0, st, fuel);
  }

  /** `let add = fn(x, y) { x + y; }; add(1, 2)` evaluates to 3. */
  lemma ProgramExample(fuel: nat)
    requires fuel > 0
    ensures var program := [
        Let("let", "add", Some(FnLit("fn", ["x", "y"], Body(Infix("x", Ident("x"), "+", Ident("y")))))),
        ExprStmt("add", Call("(", Ident("add"), [IntLit("1", 1), IntLit("2", 2)]))];
      ProgramFrom(program, 0, RootStore(), fuel, Nil).0 == Ok(Integer(3))
  {
    var body := Body(Infix("x", Ident("x"), "+", Ident("y")));
    var let_ := Let("let", "add", Some(FnLit("fn", ["x", "y"], body)));
    var call := ExprStmt("add", Call("(", Ident("add"), [IntLit("1", 1), IntLit("2", 2)]));
    var st0 := RootStore();
    var (v1, st1) := EvalStmt(let_, 0, st0, fuel);
    LetBindsInCurrentScope("let", "add", FnLit("fn", ["x", "y"], body), 0, st0, fuel, "add", 0);
    assert |st1.scopes| == 1 && st1.scopes[0].outer == None;
    AddStatementExample(st1, fuel);
    var program := [let_, call];
    assert program[0] == let_ && program[1..] == [call] && program[1..][1..] == [];
  }
}
