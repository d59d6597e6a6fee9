/**
 * The bottom-up AST rewrite of ast/modify.go. The modifier sees only the
 * node kinds the rewrite does not descend into; every other node gets its
 * child slots replaced by their rewritten children. A modifier may carry
 * state `S` from one application to the next (the evaluator threads its scope
 * store through it).
 */
module Modify {
  import opened Wrappers
  import opened Ast

  /** What a modifier returns: a replacement node, Go's nil (`None`), or a panic. */
  type Modifier<!S> = (Expr, S) -> (Outcome<Option<Expr>>, S)

  /** The type assertion `.(Expression)` applied to a nil node. */
  const NilNode := "interface conversion: interface is nil, not ast.Expression"
  /** `Modify` entered with the nil `Else` block of an if-expression dereferences it. */
  const NilBlock := NilDereference
  /** The type assertion `.(*ast.Identifier)` applied to another node kind. */
  const NotIdentifier := "interface conversion: ast.Node is not *ast.Identifier"

  /** The node kinds the rewrite does not descend into and hands to the modifier. */
  predicate IsLeafKind(e: Expr)
  {
    e.Ident? || e.IntLit? || e.BoolLit? || e.NullLit? || e.StrLit? || e.Call? || e.MacroLit?
  }

  /**
   * `Modify` on an expression: the rewritten node, or nil when the modifier
   * returned nil for the root. The modifier decides for the leaf kinds alone;
   * a node the rewrite descends into comes back as itself, never nil, with its
   * Go type and token.
   */
  function ModifyExpr<S>(e: Expr, f: Modifier<S>, s: S): (r: (Outcome<Option<Expr>>, S))
    ensures IsLeafKind(e) ==> r == f(e, s)
    decreases ExprSize(e), 1
  {
    match e
    case Prefix(t, op, rhs) =>
      var (r, s1) := ModifySlot(rhs, f, s);
      if !r.Ok? then (r.Forward(), s1) else (Ok(Some(Prefix(t, op, r.value))), s1)
    case Infix(t, lhs, op, rhs) =>
      var (l, s1) := ModifySlot(lhs, f, s);
      if !l.Ok? then (l.Forward(), s1) else
      var (r, s2) := ModifySlot(rhs, f, s1);
      if !r.Ok? then (r.Forward(), s2) else (Ok(Some(Infix(t, l.value, op, r.value))), s2)
    case Index(t, left, index) =>
      var (l, s1) := ModifySlot(left, f, s);
      if !l.Ok? then (l.Forward(), s1) else
      var (i, s2) := ModifySlot(index, f, s1);
      if !i.Ok? then (i.Forward(), s2) else (Ok(Some(Index(t, l.value, i.value))), s2)
    case If(t, c, b, alt) =>
      var (c', s1) := ModifySlot(c, f, s);
      if !c'.Ok? then (c'.Forward(), s1) else
      var (b', s2) := ModifyBlock(b, f, s1);
      if !b'.Ok? then (b'.Forward(), s2) else
      (match alt
       case None => (Panic(NilBlock), s2)
       case Some(eb) =>
         var (eb', s3) := ModifyBlock(eb, f, s2);
         if !eb'.Ok? then (eb'.Forward(), s3) else (Ok(Some(If(t, c'.value, b'.value, Some(eb'.value)))), s3))
    case FnLit(t, ps, body) =>
      var (ps', s1) := ModifyParams(ps, f, s);
      if !ps'.Ok? then (ps'.Forward(), s1) else
      var (body', s2) := ModifyBlock(body, f, s1);
      if !body'.Ok? then (body'.Forward(), s2) else (Ok(Some(FnLit(t, ps'.value, body'.value))), s2)
    case ArrayLit(t, es) =>
      var (es', s1) := ModifySlots(es, f, s);
      if !es'.Ok? then (es'.Forward(), s1) else (Ok(Some(ArrayLit(t, es'.value))), s1)
    case HashLit(t, ps) =>
      var (ps', s1) := ModifyPairs(ps, f, s);
      if !ps'.Ok? then (ps'.Forward(), s1) else (Ok(Some(HashLit(t, ps'.value))), s1)
    case _ => f(e, s)
  }

  /** A node the rewrite descends into keeps its Go type and its token. */
  lemma ModifyKeepsKind<S>(e: Expr, f: Modifier<S>, s: S)
    requires !IsLeafKind(e)
    ensures var r := ModifyExpr(e, f, s).0;
      r.Ok? ==> r.value.Some? && TypeName(r.value.value) == TypeName(e) && ExprTokenLiteral(r.value.value) == ExprTokenLiteral(e)
  {
  }

  /** A child slot of expression type: `Modify(child, f).(Expression)`, which panics on nil. */
  function ModifySlot<S>(e: Expr, f: Modifier<S>, s: S): (r: (Outcome<Expr>, S))
    ensures IsLeafKind(e) && f(e, s).0 == Ok(None) ==> r.0 == Panic(NilNode)
    decreases ExprSize(e), 2
  {
    var (r, s1) := ModifyExpr(e, f, s);
    if !r.Ok? then (r.Forward(), s1)
    else if r.value.None? then (Panic(NilNode), s1)
    else (Ok(r.value.value), s1)
  }

  /** Element slots, rewritten from the first to the last; none is dropped. */
  function ModifySlots<S>(es: seq<Expr>, f: Modifier<S>, s: S): (r: (Outcome<seq<Expr>>, S))
    ensures r.0.Ok? ==> |r.0.value| == |es|
    decreases ExprsSize(es), 3
  {
    if es == [] then (Ok([]), s) else
    var (h, s1) := ModifySlot(es[0], f, s);
    if !h.Ok? then (h.Forward(), s1) else
    var (t, s2) := ModifySlots(es[1..], f, s1);
    if !t.Ok? then (t.Forward(), s2) else (Ok([h.value] + t.value), s2)
  }

  /** Hash pairs: each key, then its value; the pair list is rebuilt from the rewritten halves, one pair per pair. */
  function ModifyPairs<S>(ps: seq<Pair>, f: Modifier<S>, s: S): (r: (Outcome<seq<Pair>>, S))
    ensures r.0.Ok? ==> |r.0.value| == |ps|
    decreases PairsSize(ps), 3
  {
    if ps == [] then (Ok([]), s) else
    assert PairsSize(ps) == ExprSize(ps[0].key) + ExprSize(ps[0].value) + PairsSize(ps[1..]);
    var (k, s1) := ModifySlot(ps[0].key, f, s);
    if !k.Ok? then (k.Forward(), s1) else
    var (v, s2) := ModifySlot(ps[0].value, f, s1);
    if !v.Ok? then (v.Forward(), s2) else
    var (t, s3) := ModifyPairs(ps[1..], f, s2);
    if !t.Ok? then (t.Forward(), s3) else (Ok([Pair(k.value, v.value)] + t.value), s3)
  }

  /** Parameters: the modifier sees each as an identifier and must give one back (`.(*ast.Identifier)`). */
  function ModifyParams<S>(ps: seq<string>, f: Modifier<S>, s: S): (r: (Outcome<seq<string>>, S))
    ensures r.0.Ok? ==> |r.0.value| == |ps|
    ensures ps != [] && f(Ident(ps[0]), s).0 == Ok(None) ==> r.0 == Panic(NilNode)
    decreases |ps|
  {
    if ps == [] then (Ok([]), s) else
    var (h, s1) := f(Ident(ps[0]), s);
    if !h.Ok? then (h.Forward(), s1)
    else if h.value.None? then (Panic(NilNode), s1)
    else if !h.value.value.Ident? then (Panic(NotIdentifier), s1)
    else
      var (t, s2) := ModifyParams(ps[1..], f, s1);
      if !t.Ok? then (t.Forward(), s2) else (Ok([h.value.value.name] + t.value), s2)
  }

  /**
   * `Modify` on a statement; it never yields nil, since statements are always
   * descended into: the statement comes back with its kind, token and name.
   * The nil let panics.
   */
  function ModifyStmt<S>(st: Stmt, f: Modifier<S>, s: S): (r: (Outcome<Stmt>, S))
    ensures st.NilLet? ==> r.0 == Panic(NilDereference)
    ensures r.0.Ok? ==>
      (!st.NilLet? && !r.0.value.NilLet? && r.0.value.tok == st.tok
       && r.0.value.Let? == st.Let? && r.0.value.Return? == st.Return?
       && (st.Let? ==> r.0.value.name == st.name && r.0.value.value.Some?))
    decreases StmtSize(st), 1
  {
    match st
    case Let(t, n, v) =>
      (match v
       case None => (Panic(NilNode), s)
       case Some(e) =>
         var (e', s1) := ModifySlot(e, f, s);
         if !e'.Ok? then (e'.Forward(), s1) else (Ok(Let(t, n, Some(e'.value))), s1))
    case Return(t, e) =>
      var (e', s1) := ModifySlot(e, f, s);
      if !e'.Ok? then (e'.Forward(), s1) else (Ok(Return(t, e'.value)), s1)
    case ExprStmt(t, e) =>
      var (e', s1) := ModifySlot(e, f, s);
      if !e'.Ok? then (e'.Forward(), s1) else (Ok(ExprStmt(t, e'.value)), s1)
    case NilLet => (Panic(NilDereference), s)
  }

  /** The statements rewritten from the first to the last; none is dropped. */
  function ModifyStmts<S>(ss: seq<Stmt>, f: Modifier<S>, s: S): (r: (Outcome<seq<Stmt>>, S))
    ensures r.0.Ok? ==> |r.0.value| == |ss|
    decreases StmtsSize(ss), 2
  {
    if ss == [] then (Ok([]), s) else
    var (h, s1) := ModifyStmt(ss[0], f, s);
    if !h.Ok? then (h.Forward(), s1) else
    var (t, s2) := ModifyStmts(ss[1..], f, s1);
    if !t.Ok? then (t.Forward(), s2) else (Ok([h.value] + t.value), s2)
  }

  /** A block keeps its token and its number of statements. */
  function ModifyBlock<S>(b: Block, f: Modifier<S>, s: S): (r: (Outcome<Block>, S))
    ensures r.0.Ok? ==> r.0.value.tok == b.tok && |r.0.value.stmts| == |b.stmts|
    decreases BlockSize(b), 0
  {
    var (ss, s1) := ModifyStmts(b.stmts, f, s);
    if !ss.Ok? then (ss.Forward(), s1) else (Ok(Block(b.tok, ss.value)), s1)
  }

  /** A rewrite of the statements after `done`, as a rewrite of the whole list. */
  function After<S>(done: seq<Stmt>, r: (Outcome<seq<Stmt>>, S)): (Outcome<seq<Stmt>>, S)
  {
    if !r.0.Ok? then r else (Ok(done + r.0.value), r.1)
  }

  lemma AfterAfter<S>(a: seq<Stmt>, b: seq<Stmt>, r: (Outcome<seq<Stmt>>, S))
    ensures After(a, After(b, r)) == After(a + b, r)
  {
    if r.0.Ok? {
      assert a + (b + r.0.value) == (a + b) + r.0.value;
    }
  }

  /**
   * `Modify` on a program: each statement slot is overwritten, in order, by its
   * rewritten statement, and the same program object is returned.
   */
  method ModifyProgram<S>(p: Program, f: Modifier<S>, s: S) returns (res: Outcome<Program>, s': S)
    modifies p
    ensures var (r, t) := ModifyStmts(old(p.statements), f, s);
      s' == t && res.Ok? == r.Ok? && (r.Ok? ==> res.value == p && p.statements == r.value)
      && (!r.Ok? ==> res == r.Forward())
  {
    ghost var original := p.statements;
    var i := 0;
    s' := s;
    assert original[0..] == original;
    var whole := ModifyStmts(original, f, s);
    if whole.0.Ok? {
      assert [] + whole.0.value == whole.0.value;
    }
    while i < |p.statements|
      invariant 0 <= i <= |p.statements| == |original|
      invariant p.statements[i..] == original[i..]
      invariant ModifyStmts(original, f, s) == After(p.statements[..i], ModifyStmts(original[i..], f, s'))
    {
      assert original[i..][0] == original[i];
      assert original[i..][1..] == original[i + 1..];
      var (h, s1) := ModifyStmt(p.statements[i], f, s');
      if !h.Ok? {
        res, s' := h.Forward(), s1;
        return;
      }
      AfterAfter(p.statements[..i], [h.value], ModifyStmts(original[i + 1..], f, s1));
      p.statements := p.statements[i := h.value];
      s' := s1;
      i := i + 1;
      assert p.statements[..i] == p.statements[..i - 1] + [h.value];
    }
    assert original[i..] == [];
    assert p.statements[..i] == p.statements;
    res := Ok(p);
  }

  // ---------------------------------------------------------------------------
  // What the modifier is handed, and where the rewrite panics

  /**
   * No if-expression without an `else`, no `let` without a value and no nil
   * let, outside the nodes handed to the modifier.
   */
  predicate Modifiable(e: Expr)
    decreases ExprSize(e), 0
  {
    match e
    case Prefix(_, _, rhs) => Modifiable(rhs)
    case Infix(_, l, _, r) => Modifiable(l) && Modifiable(r)
    case Index(_, l, i) => Modifiable(l) && Modifiable(i)
    case If(_, c, b, alt) => Modifiable(c) && ModifiableBlock(b) && alt.Some? && ModifiableBlock(alt.value)
    case FnLit(_, _, body) => ModifiableBlock(body)
    case ArrayLit(_, es) => ModifiableAll(es)
    case HashLit(_, ps) => ModifiablePairs(ps)
    case _ => true
  }

  predicate ModifiableAll(es: seq<Expr>)
    decreases ExprsSize(es), 1
  {
    es == [] || (Modifiable(es[0]) && ModifiableAll(es[1..]))
  }

  predicate ModifiablePairs(ps: seq<Pair>)
    decreases PairsSize(ps)
  {
    ps == [] ||
    (assert PairsSize(ps) == ExprSize(ps[0].key) + ExprSize(ps[0].value) + PairsSize(ps[1..]);
     Modifiable(ps[0].key) && Modifiable(ps[0].value) && ModifiablePairs(ps[1..]))
  }

  predicate ModifiableStmt(st: Stmt)
    decreases StmtSize(st), 0
  {
    match st
    case Let(_, _, v) => v.Some? && Modifiable(v.value)
    case Return(_, e) => Modifiable(e)
    case ExprStmt(_, e) => Modifiable(e)
    case NilLet => false
  }

  predicate ModifiableStmts(ss: seq<Stmt>)
    decreases StmtsSize(ss), 1
  {
    ss == [] || (ModifiableStmt(ss[0]) && ModifiableStmts(ss[1..]))
  }

  predicate ModifiableBlock(b: Block)
    decreases BlockSize(b)
  {
    ModifiableStmts(b.stmts)
  }

  /**
   * The nodes a modifier is handed, in the order it is handed them: the
   * leaf-kind nodes (calls and macro literals whole, without their callees or
   * arguments) and each function parameter as an identifier.
   */
  function Leaves(e: Expr): (r: seq<Expr>)
    ensures forall x <- r :: IsLeafKind(x)
    decreases ExprSize(e), 0
  {
    match e
    case Prefix(_, _, rhs) => Leaves(rhs)
    case Infix(_, l, _, r) => Leaves(l) + Leaves(r)
    case Index(_, l, i) => Leaves(l) + Leaves(i)
    case If(_, c, b, alt) =>
      Leaves(c) + BlockLeaves(b) + (match alt case Some(eb) => BlockLeaves(eb) case None => [])
    case FnLit(_, ps, body) => ParamLeaves(ps) + BlockLeaves(body)
    case ArrayLit(_, es) => AllLeaves(es)
    case HashLit(_, ps) => PairLeaves(ps)
    case _ => [e]
  }

  function AllLeaves(es: seq<Expr>): (r: seq<Expr>)
    ensures forall x <- r :: IsLeafKind(x)
    decreases ExprsSize(es), 1
  {
    if es == [] then [] else Leaves(es[0]) + AllLeaves(es[1..])
  }

  function PairLeaves(ps: seq<Pair>): (r: seq<Expr>)
    ensures forall x <- r :: IsLeafKind(x)
    decreases PairsSize(ps)
  {
    if ps == [] then [] else
    assert PairsSize(ps) == ExprSize(ps[0].key) + ExprSize(ps[0].value) + PairsSize(ps[1..]);
    Leaves(ps[0].key) + Leaves(ps[0].value) + PairLeaves(ps[1..])
  }

  function ParamLeaves(ps: seq<string>): (r: seq<Expr>)
    ensures |r| == |ps| && forall i :: 0 <= i < |ps| ==> r[i] == Ident(ps[i])
  {
    if ps == [] then [] else [Ident(ps[0])] + ParamLeaves(ps[1..])
  }

  function StmtLeaves(st: Stmt): (r: seq<Expr>)
    ensures forall x <- r :: IsLeafKind(x)
    decreases StmtSize(st), 0
  {
    match st
    case Let(_, _, v) => (match v case Some(e) => Leaves(e) case None => [])
    case Return(_, e) => Leaves(e)
    case ExprStmt(_, e) => Leaves(e)
    case NilLet => []
  }

  function StmtsLeaves(ss: seq<Stmt>): (r: seq<Expr>)
    ensures forall x <- r :: IsLeafKind(x)
    decreases StmtsSize(ss), 1
  {
    if ss == [] then [] else StmtLeaves(ss[0]) + StmtsLeaves(ss[1..])
  }

  function BlockLeaves(b: Block): (r: seq<Expr>)
    ensures forall x <- r :: IsLeafKind(x)
    decreases BlockSize(b)
  {
    StmtsLeaves(b.stmts)
  }

  /** A modifier that keeps every node and logs each node it is handed. */
  function Record(e: Expr, log: seq<Expr>): (Outcome<Option<Expr>>, seq<Expr>)
  {
    (Ok(Some(e)), log + [e])
  }

  /**
   * The rewrite hands the modifier exactly the leaf-kind nodes, in source
   * order, and rebuilds the node it started from; it panics exactly when a
   * nil slot (a missing `else`, a `let` without value) is reached.
   */
  lemma {:induction false} RecordSeesLeaves(e: Expr, log: seq<Expr>)
    ensures var (r, log') := ModifyExpr(e, Record, log);
      (Modifiable(e) ==> r == Ok(Some(e)) && log' == log + Leaves(e))
      && (!Modifiable(e) ==> r.Panic?)
    decreases ExprSize(e), 1
  {
    match e
    case Prefix(_, _, rhs) => RecordSlot(rhs, log);
    case Infix(_, _, _, _) => RecordBinary(e, log);
    case Index(_, _, _) => RecordBinary(e, log);
    case If(_, _, _, _) => RecordIf(e, log);
    case FnLit(_, _, _) => RecordFunction(e, log);
    case ArrayLit(_, es) => RecordSlots(es, log);
    case HashLit(_, ps) => RecordPairs(ps, log);
    case _ =>
  }

  lemma {:induction false} RecordBinary(e: Expr, log: seq<Expr>)
    requires e.Infix? || e.Index?
    ensures var (r, log') := ModifyExpr(e, Record, log);
      (Modifiable(e) ==> r == Ok(Some(e)) && log' == log + Leaves(e))
      && (!Modifiable(e) ==> r.Panic?)
    decreases ExprSize(e), 0
  {
    var (l, r) := if e.Infix? then (e.lhs, e.rhs) else (e.left, e.index);
    RecordSlot(l, log);
    RecordSlot(r, log + Leaves(l));
    assert log + Leaves(l) + Leaves(r) == log + (Leaves(l) + Leaves(r));
  }

  lemma {:induction false} RecordFunction(e: Expr, log: seq<Expr>)
    requires e.FnLit?
    ensures var (r, log') := ModifyExpr(e, Record, log);
      (Modifiable(e) ==> r == Ok(Some(e)) && log' == log + Leaves(e))
      && (!Modifiable(e) ==> r.Panic?)
    decreases ExprSize(e), 0
  {
    RecordParams(e.params, log);
    RecordBlock(e.body, log + ParamLeaves(e.params));
    assert log + ParamLeaves(e.params) + BlockLeaves(e.body) == log + (ParamLeaves(e.params) + BlockLeaves(e.body));
  }

  lemma {:induction false} RecordIf(e: Expr, log: seq<Expr>)
    requires e.If?
    ensures var (r, log') := ModifyExpr(e, Record, log);
      (Modifiable(e) ==> r == Ok(Some(e)) && log' == log + Leaves(e))
      && (!Modifiable(e) ==> r.Panic?)
    decreases ExprSize(e), 0
  {
    var If(_, c, b, alt) := e;
    RecordSlot(c, log);
    RecordBlock(b, log + Leaves(c));
    assert log + Leaves(c) + BlockLeaves(b) == log + (Leaves(c) + BlockLeaves(b));
    if alt.Some? {
      RecordBlock(alt.value, log + Leaves(c) + BlockLeaves(b));
      assert log + Leaves(c) + BlockLeaves(b) + BlockLeaves(alt.value)
        == log + (Leaves(c) + BlockLeaves(b) + BlockLeaves(alt.value));
    }
  }

  lemma {:induction false} RecordSlot(e: Expr, log: seq<Expr>)
    ensures var (r, log') := ModifySlot(e, Record, log);
      (Modifiable(e) ==> r == Ok(e) && log' == log + Leaves(e))
      && (!Modifiable(e) ==> r.Panic?)
    decreases ExprSize(e), 2
  {
    RecordSeesLeaves(e, log);
  }

  lemma {:induction false} RecordSlots(es: seq<Expr>, log: seq<Expr>)
    ensures var (r, log') := ModifySlots(es, Record, log);
      (ModifiableAll(es) ==> r == Ok(es) && log' == log + AllLeaves(es))
      && (!ModifiableAll(es) ==> r.Panic?)
    decreases ExprsSize(es), 3
  {
    if es != [] {
      RecordSlot(es[0], log);
      RecordSlots(es[1..], log + Leaves(es[0]));
      assert [es[0]] + es[1..] == es;
    }
  }

  lemma {:induction false} RecordPairs(ps: seq<Pair>, log: seq<Expr>)
    ensures var (r, log') := ModifyPairs(ps, Record, log);
      (ModifiablePairs(ps) ==> r == Ok(ps) && log' == log + PairLeaves(ps))
      && (!ModifiablePairs(ps) ==> r.Panic?)
    decreases PairsSize(ps), 3
  {
    if ps != [] {
      assert PairsSize(ps) == ExprSize(ps[0].key) + ExprSize(ps[0].value) + PairsSize(ps[1..]);
      RecordSlot(ps[0].key, log);
      RecordSlot(ps[0].value, log + Leaves(ps[0].key));
      RecordPairs(ps[1..], log + Leaves(ps[0].key) + Leaves(ps[0].value));
      assert [Pair(ps[0].key, ps[0].value)] + ps[1..] == ps;
    }
  }

  lemma {:induction false} RecordParams(ps: seq<string>, log: seq<Expr>)
    ensures ModifyParams(ps, Record, log) == (Ok(ps), log + ParamLeaves(ps))
    decreases |ps|
  {
    if ps == [] {
      assert log + [] == log;
    } else {
      RecordParams(ps[1..], log + [Ident(ps[0])]);
      assert log + [Ident(ps[0])] + ParamLeaves(ps[1..]) == log + ParamLeaves(ps);
      assert [ps[0]] + ps[1..] == ps;
    }
  }

  lemma {:induction false} RecordStmt(st: Stmt, log: seq<Expr>)
    ensures var (r, log') := ModifyStmt(st, Record, log);
      (ModifiableStmt(st) ==> r == Ok(st) && log' == log + StmtLeaves(st))
      && (!ModifiableStmt(st) ==> r.Panic?)
    decreases StmtSize(st), 1
  {
    match st
    case Let(_, _, v) => if v.Some? { RecordSlot(v.value, log); }
    case Return(_, e) => RecordSlot(e, log);
    case ExprStmt(_, e) => RecordSlot(e, log);
    case NilLet =>
  }

  lemma {:induction false} RecordStmts(ss: seq<Stmt>, log: seq<Expr>)
    ensures var (r, log') := ModifyStmts(ss, Record, log);
      (ModifiableStmts(ss) ==> r == Ok(ss) && log' == log + StmtsLeaves(ss))
      && (!ModifiableStmts(ss) ==> r.Panic?)
    decreases StmtsSize(ss), 2
  {
    if ss != [] {
      RecordStmt(ss[0], log);
      RecordStmts(ss[1..], log + StmtLeaves(ss[0]));
      assert [ss[0]] + ss[1..] == ss;
    }
  }

  lemma {:induction false} RecordBlock(b: Block, log: seq<Expr>)
    ensures var (r, log') := ModifyBlock(b, Record, log);
      (ModifiableBlock(b) ==> r == Ok(b) && log' == log + BlockLeaves(b))
      && (!ModifiableBlock(b) ==> r.Panic?)
    decreases BlockSize(b), 0
  {
    RecordStmts(b.stmts, log);
  }

  // ---------------------------------------------------------------------------
  // A modifier without state or failure is a map over the leaves

  /** The modifier that replaces each node it is handed by `g` of it. */
  function Lift<S>(g: Expr -> Expr): Modifier<S>
  {
    (x: Expr, s: S) => (Ok(Some(g(x))), s)
  }

  /** `g` gives back an identifier for every identifier, as parameters require. */
  ghost predicate KeepsIdents(g: Expr -> Expr)
  {
    forall n: string :: g(Ident(n)).Ident?
  }

  /** Every node handed to the modifier replaced by `g` of it; everything else as it was. */
  function MapLeaves(e: Expr, g: Expr -> Expr): Expr
    decreases ExprSize(e), 0
  {
    match e
    case Prefix(t, op, rhs) => Prefix(t, op, MapLeaves(rhs, g))
    case Infix(t, l, op, r) => Infix(t, MapLeaves(l, g), op, MapLeaves(r, g))
    case Index(t, l, i) => Index(t, MapLeaves(l, g), MapLeaves(i, g))
    case If(t, c, b, alt) =>
      If(t, MapLeaves(c, g), MapBlock(b, g), match alt case Some(eb) => Some(MapBlock(eb, g)) case None => None)
    case FnLit(t, ps, body) => FnLit(t, MapParams(ps, g), MapBlock(body, g))
    case ArrayLit(t, es) => ArrayLit(t, MapAll(es, g))
    case HashLit(t, ps) => HashLit(t, MapPairs(ps, g))
    case _ => g(e)
  }

  function MapAll(es: seq<Expr>, g: Expr -> Expr): (r: seq<Expr>)
    ensures |r| == |es|
    decreases ExprsSize(es), 1
  {
    if es == [] then [] else [MapLeaves(es[0], g)] + MapAll(es[1..], g)
  }

  function MapPairs(ps: seq<Pair>, g: Expr -> Expr): (r: seq<Pair>)
    ensures |r| == |ps|
    decreases PairsSize(ps), 1
  {
    if ps == [] then [] else
    assert PairsSize(ps) == ExprSize(ps[0].key) + ExprSize(ps[0].value) + PairsSize(ps[1..]);
    [Pair(MapLeaves(ps[0].key, g), MapLeaves(ps[0].value, g))] + MapPairs(ps[1..], g)
  }

  function MapParams(ps: seq<string>, g: Expr -> Expr): (r: seq<string>)
    ensures |r| == |ps|
  {
    if ps == [] then [] else
    var x := g(Ident(ps[0]));
    [if x.Ident? then x.name else ps[0]] + MapParams(ps[1..], g)
  }

  function MapStmt(st: Stmt, g: Expr -> Expr): Stmt
    decreases StmtSize(st), 0
  {
    match st
    case Let(t, n, v) => Let(t, n, match v case Some(e) => Some(MapLeaves(e, g)) case None => None)
    case Return(t, e) => Return(t, MapLeaves(e, g))
    case ExprStmt(t, e) => ExprStmt(t, MapLeaves(e, g))
    case NilLet => NilLet
  }

  function MapStmts(ss: seq<Stmt>, g: Expr -> Expr): (r: seq<Stmt>)
    ensures |r| == |ss|
    decreases StmtsSize(ss), 1
  {
    if ss == [] then [] else [MapStmt(ss[0], g)] + MapStmts(ss[1..], g)
  }

  function MapBlock(b: Block, g: Expr -> Expr): Block
    decreases BlockSize(b), 2
  {
    Block(b.tok, MapStmts(b.stmts, g))
  }

  /**
   * With a modifier that neither keeps state nor fails, the rewrite is the
   * map of `g` over the leaves: tokens, operators, names and the shape of
   * every node it descends into are kept, and sequences keep their length
   * and order.
   */
  lemma {:induction false} LiftMapsLeaves<S>(e: Expr, g: Expr -> Expr, s: S)
    requires Modifiable(e) && KeepsIdents(g)
    ensures ModifyExpr(e, Lift(g), s) == (Ok(Some(MapLeaves(e, g))), s)
    decreases ExprSize(e), 1
  {
    match e
    case Prefix(_, _, rhs) => LiftSlot(rhs, g, s);
    case Infix(_, l, _, r) => LiftSlot(l, g, s); LiftSlot(r, g, s);
    case Index(_, l, i) => LiftSlot(l, g, s); LiftSlot(i, g, s);
    case If(_, c, b, alt) => LiftSlot(c, g, s); LiftBlock(b, g, s); LiftBlock(alt.value, g, s);
    case FnLit(_, ps, body) => LiftParams(ps, g, s); LiftBlock(body, g, s);
    case ArrayLit(_, es) => LiftSlots(es, g, s);
    case HashLit(_, ps) => LiftPairs(ps, g, s);
    case _ =>
  }

  lemma {:induction false} LiftSlot<S>(e: Expr, g: Expr -> Expr, s: S)
    requires Modifiable(e) && KeepsIdents(g)
    ensures ModifySlot(e, Lift(g), s) == (Ok(MapLeaves(e, g)), s)
    decreases ExprSize(e), 2
  {
    LiftMapsLeaves(e, g, s);
  }

  lemma {:induction false} LiftSlots<S>(es: seq<Expr>, g: Expr -> Expr, s: S)
    requires ModifiableAll(es) && KeepsIdents(g)
    ensures ModifySlots(es, Lift(g), s) == (Ok(MapAll(es, g)), s)
    decreases ExprsSize(es), 3
  {
    if es != [] {
      LiftSlot(es[0], g, s);
      LiftSlots(es[1..], g, s);
    }
  }

  lemma {:induction false} LiftPairs<S>(ps: seq<Pair>, g: Expr -> Expr, s: S)
    requires ModifiablePairs(ps) && KeepsIdents(g)
    ensures ModifyPairs(ps, Lift(g), s) == (Ok(MapPairs(ps, g)), s)
    decreases PairsSize(ps), 3
  {
    if ps != [] {
      assert PairsSize(ps) == ExprSize(ps[0].key) + ExprSize(ps[0].value) + PairsSize(ps[1..]);
      LiftSlot(ps[0].key, g, s);
      LiftSlot(ps[0].value, g, s);
      LiftPairs(ps[1..], g, s);
    }
  }

  lemma {:induction false} LiftParams<S>(ps: seq<string>, g: Expr -> Expr, s: S)
    requires KeepsIdents(g)
    ensures ModifyParams(ps, Lift(g), s) == (Ok(MapParams(ps, g)), s)
    decreases |ps|
  {
    if ps != [] {
      assert g(Ident(ps[0])).Ident?;
      LiftParams(ps[1..], g, s);
    }
  }

  lemma {:induction false} LiftStmt<S>(st: Stmt, g: Expr -> Expr, s: S)
    requires ModifiableStmt(st) && KeepsIdents(g)
    ensures ModifyStmt(st, Lift(g), s) == (Ok(MapStmt(st, g)), s)
    decreases StmtSize(st), 1
  {
    match st
    case Let(_, _, v) => LiftSlot(v.value, g, s);
    case Return(_, e) => LiftSlot(e, g, s);
    case ExprStmt(_, e) => LiftSlot(e, g, s);
    case NilLet => assert false;
  }

  lemma {:induction false} LiftStmts<S>(ss: seq<Stmt>, g: Expr -> Expr, s: S)
    requires ModifiableStmts(ss) && KeepsIdents(g)
    ensures ModifyStmts(ss, Lift(g), s) == (Ok(MapStmts(ss, g)), s)
    decreases StmtsSize(ss), 2
  {
    if ss != [] {
      LiftStmt(ss[0], g, s);
      LiftStmts(ss[1..], g, s);
    }
  }

  lemma {:induction false} LiftBlock<S>(b: Block, g: Expr -> Expr, s: S)
    requires ModifiableBlock(b) && KeepsIdents(g)
    ensures ModifyBlock(b, Lift(g), s) == (Ok(MapBlock(b, g)), s)
    decreases BlockSize(b), 0
  {
    LiftStmts(b.stmts, g, s);
  }

  // ---------------------------------------------------------------------------
  // The modifier's state through the rewrite

  /** `R` is reflexive and transitive. */
  ghost predicate PreOrder<S(!new)>(R: (S, S) -> bool)
  {
    (forall a :: R(a, a)) && (forall a, b, c :: R(a, b) && R(b, c) ==> R(a, c))
  }

  /** Every application of `f` moves its state along `R`. */
  ghost predicate Keeps<S(!new)>(f: Modifier<S>, R: (S, S) -> bool)
  {
    forall x, a :: R(a, f(x, a).1)
  }

  /**
   * The rewrite threads the modifier's state from one application to the
   * next, so any reflexive, transitive relation each application keeps, the
   * whole rewrite keeps.
   */
  lemma {:induction false} KeepsExpr<S(!new)>(e: Expr, f: Modifier<S>, s: S, R: (S, S) -> bool)
    requires PreOrder(R) && Keeps(f, R)
    ensures R(s, ModifyExpr(e, f, s).1)
    decreases ExprSize(e), 1
  {
    match e
    case Prefix(_, _, rhs) => KeepsSlot(rhs, f, s, R);
    case Infix(_, l, _, r) =>
      KeepsSlot(l, f, s, R);
      KeepsSlot(r, f, ModifySlot(l, f, s).1, R);
    case Index(_, l, i) =>
      KeepsSlot(l, f, s, R);
      KeepsSlot(i, f, ModifySlot(l, f, s).1, R);
    case If(_, c, b, alt) =>
      KeepsSlot(c, f, s, R);
      var s1 := ModifySlot(c, f, s).1;
      KeepsBlock(b, f, s1, R);
      if alt.Some? {
        KeepsBlock(alt.value, f, ModifyBlock(b, f, s1).1, R);
      }
    case FnLit(_, ps, body) =>
      KeepsParams(ps, f, s, R);
      KeepsBlock(body, f, ModifyParams(ps, f, s).1, R);
    case ArrayLit(_, es) => KeepsSlots(es, f, s, R);
    case HashLit(_, ps) => KeepsPairs(ps, f, s, R);
    case _ =>
  }

  lemma {:induction false} KeepsSlot<S(!new)>(e: Expr, f: Modifier<S>, s: S, R: (S, S) -> bool)
    requires PreOrder(R) && Keeps(f, R)
    ensures R(s, ModifySlot(e, f, s).1)
    decreases ExprSize(e), 2
  {
    KeepsExpr(e, f, s, R);
  }

  lemma {:induction false} KeepsSlots<S(!new)>(es: seq<Expr>, f: Modifier<S>, s: S, R: (S, S) -> bool)
    requires PreOrder(R) && Keeps(f, R)
    ensures R(s, ModifySlots(es, f, s).1)
    decreases ExprsSize(es), 3
  {
    if es != [] {
      KeepsSlot(es[0], f, s, R);
      KeepsSlots(es[1..], f, ModifySlot(es[0], f, s).1, R);
    }
  }

  lemma {:induction false} KeepsPairs<S(!new)>(ps: seq<Pair>, f: Modifier<S>, s: S, R: (S, S) -> bool)
    requires PreOrder(R) && Keeps(f, R)
    ensures R(s, ModifyPairs(ps, f, s).1)
    decreases PairsSize(ps), 3
  {
    if ps != [] {
      assert PairsSize(ps) == ExprSize(ps[0].key) + ExprSize(ps[0].value) + PairsSize(ps[1..]);
      KeepsSlot(ps[0].key, f, s, R);
      var s1 := ModifySlot(ps[0].key, f, s).1;
      KeepsSlot(ps[0].value, f, s1, R);
      KeepsPairs(ps[1..], f, ModifySlot(ps[0].value, f, s1).1, R);
    }
  }

  lemma {:induction false} KeepsParams<S(!new)>(ps: seq<string>, f: Modifier<S>, s: S, R: (S, S) -> bool)
    requires PreOrder(R) && Keeps(f, R)
    ensures R(s, ModifyParams(ps, f, s).1)
    decreases |ps|
  {
    if ps != [] {
      assert R(s, f(Ident(ps[0]), s).1);
      KeepsParams(ps[1..], f, f(Ident(ps[0]), s).1, R);
    }
  }

  lemma {:induction false} KeepsStmt<S(!new)>(st: Stmt, f: Modifier<S>, s: S, R: (S, S) -> bool)
    requires PreOrder(R) && Keeps(f, R)
    ensures R(s, ModifyStmt(st, f, s).1)
    decreases StmtSize(st), 1
  {
    match st
    case Let(_, _, v) => if v.Some? { KeepsSlot(v.value, f, s, R); }
    case Return(_, e) => KeepsSlot(e, f, s, R);
    case ExprStmt(_, e) => KeepsSlot(e, f, s, R);
    case NilLet =>
  }

  lemma {:induction false} KeepsStmts<S(!new)>(ss: seq<Stmt>, f: Modifier<S>, s: S, R: (S, S) -> bool)
    requires PreOrder(R) && Keeps(f, R)
    ensures R(s, ModifyStmts(ss, f, s).1)
    decreases StmtsSize(ss), 2
  {
    if ss != [] {
      KeepsStmt(ss[0], f, s, R);
      KeepsStmts(ss[1..], f, ModifyStmt(ss[0], f, s).1, R);
    }
  }

  lemma {:induction false} KeepsBlock<S(!new)>(b: Block, f: Modifier<S>, s: S, R: (S, S) -> bool)
    requires PreOrder(R) && Keeps(f, R)
    ensures R(s, ModifyBlock(b, f, s).1)
    decreases BlockSize(b), 0
  {
    KeepsStmts(b.stmts, f, s, R);
  }

  // ---------------------------------------------------------------------------
  // A modifier that leaves the nodes it is handed alone

  /** `f` hands `x` back unchanged, without changing its state `s`. */
  ghost predicate Fixes<S>(f: Modifier<S>, x: Expr, s: S)
  {
    f(x, s) == (Ok(Some(x)), s)
  }

  /** When the modifier leaves every node it is handed alone, the rewrite gives back the node it started from. */
  lemma {:induction false} FixedExpr<S>(e: Expr, f: Modifier<S>, s: S)
    requires Modifiable(e) && forall x <- Leaves(e) :: Fixes(f, x, s)
    ensures ModifyExpr(e, f, s) == (Ok(Some(e)), s)
    decreases ExprSize(e), 1
  {
    match e
    case Prefix(_, _, rhs) => FixedSlot(rhs, f, s);
    case Infix(_, l, _, r) => FixedSlot(l, f, s); FixedSlot(r, f, s);
    case Index(_, l, i) => FixedSlot(l, f, s); FixedSlot(i, f, s);
    case If(_, c, b, alt) => FixedSlot(c, f, s); FixedBlock(b, f, s); FixedBlock(alt.value, f, s);
    case FnLit(_, ps, body) => FixedParams(ps, f, s); FixedBlock(body, f, s);
    case ArrayLit(_, es) => FixedSlots(es, f, s);
    case HashLit(_, ps) => FixedPairs(ps, f, s);
    case _ => assert e in Leaves(e);
  }

  lemma {:induction false} FixedSlot<S>(e: Expr, f: Modifier<S>, s: S)
    requires Modifiable(e) && forall x <- Leaves(e) :: Fixes(f, x, s)
    ensures ModifySlot(e, f, s) == (Ok(e), s)
    decreases ExprSize(e), 2
  {
    FixedExpr(e, f, s);
  }

  lemma {:induction false} FixedSlots<S>(es: seq<Expr>, f: Modifier<S>, s: S)
    requires ModifiableAll(es) && forall x <- AllLeaves(es) :: Fixes(f, x, s)
    ensures ModifySlots(es, f, s) == (Ok(es), s)
    decreases ExprsSize(es), 3
  {
    if es != [] {
      FixedSlot(es[0], f, s);
      FixedSlots(es[1..], f, s);
      assert [es[0]] + es[1..] == es;
    }
  }

  lemma {:induction false} FixedPairs<S>(ps: seq<Pair>, f: Modifier<S>, s: S)
    requires ModifiablePairs(ps) && forall x <- PairLeaves(ps) :: Fixes(f, x, s)
    ensures ModifyPairs(ps, f, s) == (Ok(ps), s)
    decreases PairsSize(ps), 3
  {
    if ps != [] {
      assert PairsSize(ps) == ExprSize(ps[0].key) + ExprSize(ps[0].value) + PairsSize(ps[1..]);
      FixedSlot(ps[0].key, f, s);
      FixedSlot(ps[0].value, f, s);
      FixedPairs(ps[1..], f, s);
      assert [Pair(ps[0].key, ps[0].value)] + ps[1..] == ps;
    }
  }

  lemma {:induction false} FixedParams<S>(ps: seq<string>, f: Modifier<S>, s: S)
    requires forall x <- ParamLeaves(ps) :: Fixes(f, x, s)
    ensures ModifyParams(ps, f, s) == (Ok(ps), s)
    decreases |ps|
  {
    if ps != [] {
      assert ParamLeaves(ps) == [Ident(ps[0])] + ParamLeaves(ps[1..]);
      assert Fixes(f, Ident(ps[0]), s);
      FixedParams(ps[1..], f, s);
      assert [ps[0]] + ps[1..] == ps;
    }
  }

  lemma {:induction false} FixedStmt<S>(st: Stmt, f: Modifier<S>, s: S)
    requires ModifiableStmt(st) && forall x <- StmtLeaves(st) :: Fixes(f, x, s)
    ensures ModifyStmt(st, f, s) == (Ok(st), s)
    decreases StmtSize(st), 1
  {
    match st
    case Let(_, _, v) => FixedSlot(v.value, f, s);
    case Return(_, e) => FixedSlot(e, f, s);
    case ExprStmt(_, e) => FixedSlot(e, f, s);
    case NilLet => assert false;
  }

  lemma {:induction false} FixedStmts<S>(ss: seq<Stmt>, f: Modifier<S>, s: S)
    requires ModifiableStmts(ss) && forall x <- StmtsLeaves(ss) :: Fixes(f, x, s)
    ensures ModifyStmts(ss, f, s) == (Ok(ss), s)
    decreases StmtsSize(ss), 2
  {
    if ss != [] {
      FixedStmt(ss[0], f, s);
      FixedStmts(ss[1..], f, s);
      assert [ss[0]] + ss[1..] == ss;
    }
  }

  lemma {:induction false} FixedBlock<S>(b: Block, f: Modifier<S>, s: S)
    requires ModifiableBlock(b) && forall x <- BlockLeaves(b) :: Fixes(f, x, s)
    ensures ModifyBlock(b, f, s) == (Ok(b), s)
    decreases BlockSize(b), 0
  {
    FixedStmts(b.stmts, f, s);
  }

  // ---------------------------------------------------------------------------
  // The modifier of ast/modify_test.go

  const NotInteger := "interface conversion: ast.Node is not *ast.IntegerLiteral"

  /** Sets an integer literal of value 1 to 2 (its token text stays); any other node kind fails its type assertion. */
  function TurnOneIntoTwo(e: Expr, u: ()): (r: (Outcome<Option<Expr>>, ()))
    ensures e.IntLit? && e.intValue == 1 ==> r.0 == Ok(Some(IntLit(e.tok, 2)))
    ensures e.IntLit? && e.intValue != 1 ==> r.0 == Ok(Some(e))
    ensures !e.IntLit? ==> r.0.Panic?
  {
    if !e.IntLit? then (Panic(NotInteger), u)
    else if e.intValue != 1 then (Ok(Some(e)), u)
    else (Ok(Some(IntLit(e.tok, 2))), u)
  }

  lemma TurnOneIntoTwoRewritesSlots()
    ensures ModifyExpr(Infix("+", IntLit("1", 1), "+", IntLit("2", 2)), TurnOneIntoTwo, ()).0
      == Ok(Some(Infix("+", IntLit("1", 2), "+", IntLit("2", 2))))
    ensures ModifyExpr(Index("[", IntLit("1", 1), IntLit("1", 1)), TurnOneIntoTwo, ()).0
      == Ok(Some(Index("[", IntLit("1", 2), IntLit("1", 2))))
    ensures ModifyStmt(Let("let", "x", Some(IntLit("1", 1))), TurnOneIntoTwo, ()).0
      == Ok(Let("let", "x", Some(IntLit("1", 2))))
  {
  }

  lemma TurnOneIntoTwoRewritesBlocks()
    ensures var one := Block("{", [ExprStmt("1", IntLit("1", 1))]);
      var two := Block("{", [ExprStmt("1", IntLit("1", 2))]);
      ModifyExpr(If("if", IntLit("1", 1), one, Some(one)), TurnOneIntoTwo, ()).0
        == Ok(Some(If("if", IntLit("1", 2), two, Some(two))))
  {
    var one := Block("{", [ExprStmt("1", IntLit("1", 1))]);
    var two := Block("{", [ExprStmt("1", IntLit("1", 2))]);
    var st := ExprStmt("1", IntLit("1", 1));
    assert ModifyStmt(st, TurnOneIntoTwo, ()).0 == Ok(ExprStmt("1", IntLit("1", 2)));
    assert [st][1..] == [] && [st][0] == st;
    assert ModifyStmts([], TurnOneIntoTwo, ()) == (Ok([]), ());
    assert [ExprStmt("1", IntLit("1", 2))] + [] == [ExprStmt("1", IntLit("1", 2))];
    assert ModifyStmts([st], TurnOneIntoTwo, ()).0 == Ok([ExprStmt("1", IntLit("1", 2))]);
    assert ModifyBlock(one, TurnOneIntoTwo, ()).0 == Ok(two);
  }

  lemma TurnOneIntoTwoRewritesLiterals()
    ensures ModifyExpr(ArrayLit("[", [IntLit("1", 1)]), TurnOneIntoTwo, ()).0
      == Ok(Some(ArrayLit("[", [IntLit("1", 2)])))
    ensures ModifyExpr(HashLit("{", [Pair(IntLit("1", 1), IntLit("1", 1))]), TurnOneIntoTwo, ()).0
      == Ok(Some(HashLit("{", [Pair(IntLit("1", 2), IntLit("1", 2))])))
  {
    var one := IntLit("1", 1);
    assert ModifySlot(one, TurnOneIntoTwo, ()).0 == Ok(IntLit("1", 2));
    assert [one][1..] == [] && [one][0] == one;
    assert ModifySlots([], TurnOneIntoTwo, ()) == (Ok([]), ());
    assert [IntLit("1", 2)] + [] == [IntLit("1", 2)];
    assert ModifySlots([one], TurnOneIntoTwo, ()).0 == Ok([IntLit("1", 2)]);
    var p := Pair(one, one);
    assert [p][1..] == [] && [p][0] == p;
    assert ModifyPairs([], TurnOneIntoTwo, ()) == (Ok([]), ());
    assert [Pair(IntLit("1", 2), IntLit("1", 2))] + [] == [Pair(IntLit("1", 2), IntLit("1", 2))];
    assert ModifyPairs([p], TurnOneIntoTwo, ()).0 == Ok([Pair(IntLit("1", 2), IntLit("1", 2))]);
  }

  /** An if-expression without `else` makes the rewrite panic even when the modifier never fails. */
  lemma MissingElsePanics()
    ensures ModifyExpr(If("if", IntLit("1", 1), Block("{", []), None), TurnOneIntoTwo, ()).0 == Panic(NilBlock)
  {
  }
}
