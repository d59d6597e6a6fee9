/**
 * The macro layer of eval/macro.go. `DefineMacros` takes every top-level
 * `let name = macro(...) {...}` out of a program and binds `name`, in the
 * given scope, to a macro object; `ExpandMacros` then rewrites the program
 * with `Modify`, replacing each call of a bound macro by the node its body
 * returns when run with the call's arguments bound, unevaluated and quoted,
 * to the macro's parameters.
 */
module Macros {
  import opened Wrappers
  import opened Ast
  import opened Object
  import opened Env
  import Modify
  import opened Evaluator

  // ---------------------------------------------------------------------------
  // Macro definitions

  /** Go's `%T` of a statement. */
  function StmtTypeName(s: Stmt): string
  {
    match s
    case Let(_, _, _) => "*ast.LetStatement"
    case Return(_, _) => "*ast.ReturnStatement"
    case ExprStmt(_, _) => "*ast.ExpressionStatement"
    case NilLet => "*ast.LetStatement"
  }

  /** Go's `%T` of an expression slot; an empty slot is the nil interface. */
  function ExprTypeName(e: Option<Expr>): string
  {
    match e
    case None => "<nil>"
    case Some(x) => TypeName(x)
  }

  /**
   * `isMacroDef`: a `let` whose value is a macro literal. On a nil let, the
   * read of its value panics; `DefineMacros` stops there (`FirstNilLet`).
   */
  predicate IsMacroDef(s: Stmt)
  {
    s.Let? && s.value.Some? && s.value.value.MacroLit?
  }

  /** A definition of the macro `x`. */
  predicate Defines(s: Stmt, x: string)
  {
    IsMacroDef(s) && s.name == x
  }

  /** The object a macro definition binds: its parameters and body, closing over `env`. */
  function MacroOf(s: Stmt, env: ScopeRef): (m: Value)
    requires IsMacroDef(s)
    ensures m.Macro? && m.env == env
  {
    Macro(s.value.value.params, s.value.value.body, env)
  }

  /**
   * `addMacro`: binds the statement's name in scope `env` to its macro, and
   * fails, naming the Go type met, on anything but a macro definition.
   */
  function AddMacro(s: Stmt, env: ScopeRef, st: Store): (r: Outcome<Store>)
    requires env < |st.scopes|
    ensures r.Ok? <==> IsMacroDef(s)
    ensures s.NilLet? ==> r == Panic(NilDereference)
    ensures !s.Let? && !s.NilLet? ==> r == Err("should be a let statement, but got: " + StmtTypeName(s))
    ensures s.Let? && !IsMacroDef(s) ==> r == Err("should be assigned with a macro, but got: " + ExprTypeName(s.value))
    ensures r.Ok? ==> Lookup(r.value, env, s.name) == Some(MacroOf(s, env))
    ensures r.Ok? ==> forall x, ref | x != s.name :: Lookup(r.value, ref, x) == Lookup(st, ref, x)
  {
    if s.NilLet? then Panic(NilDereference)
    else if !s.Let? then Err("should be a let statement, but got: " + StmtTypeName(s))
    else if !IsMacroDef(s) then Err("should be assigned with a macro, but got: " + ExprTypeName(s.value))
    else
      var st' := Define(st, env, s.name, MacroOf(s, env));
      DefineThenLookup(st, env, s.name, MacroOf(s, env));
      assert forall x, ref | x != s.name :: Lookup(st', ref, x) == Lookup(st, ref, x) by {
        forall x, ref | x != s.name {
          DefineKeepsOtherNames(st, env, s.name, MacroOf(s, env), ref, x);
        }
      }
      Ok(st')
  }

  /** The statements `DefineMacros` leaves: all but the macro definitions, in their order. */
  function Remaining(ss: seq<Stmt>): (r: seq<Stmt>)
    decreases |ss|
  {
    if ss == [] then [] else (if IsMacroDef(ss[0]) then [] else [ss[0]]) + Remaining(ss[1..])
  }

  /** The store after binding, in order, every macro definition of `ss` in scope `env`. */
  function Defined(ss: seq<Stmt>, env: ScopeRef, st: Store): (r: Store)
    requires env < |st.scopes|
    ensures |r.scopes| == |st.scopes| && r.allocations == st.allocations
    decreases |ss|
  {
    if ss == [] then st else
    var st1 := Defined(ss[..|ss| - 1], env, st);
    var s := ss[|ss| - 1];
    if IsMacroDef(s) then Define(st1, env, s.name, MacroOf(s, env)) else st1
  }

  /** The position of the first nil let of `ss`, or `|ss|` when there is none. */
  function FirstNilLet(ss: seq<Stmt>): (k: nat)
    ensures k <= |ss|
    ensures forall j | 0 <= j < k :: !ss[j].NilLet?
    ensures k < |ss| ==> ss[k].NilLet?
  {
    if ss == [] || ss[0].NilLet? then 0 else 1 + FirstNilLet(ss[1..])
  }

  /** A position with no nil let before it and a nil let (or the end) at it is the first nil let. */
  lemma FirstNilLetIs(ss: seq<Stmt>, i: nat)
    requires i <= |ss|
    requires forall j | 0 <= j < i :: !ss[j].NilLet?
    requires i < |ss| ==> ss[i].NilLet?
    ensures FirstNilLet(ss) == i
  {
  }

  /**
   * `DefineMacros`: the first loop binds every macro definition and records
   * its index, the second deletes the recorded statements from the last to
   * the first. `addMacro` cannot fail on a statement `isMacroDef` accepted
   * (`AddMacro` says so), so the returned error is always nil; the first loop
   * panics at a nil let, after binding the definitions before it and before
   * any statement is deleted.
   */
  method DefineMacros(p: Program, env: ScopeRef, st: Store) returns (r: Outcome<()>, st': Store)
    requires env < |st.scopes|
    modifies p
    ensures var k := FirstNilLet(old(p.statements));
      if k == |old(p.statements)| then
        r == Ok(()) && p.statements == Remaining(old(p.statements)) && st' == Defined(old(p.statements), env, st)
      else
        r == Panic(NilDereference) && p.statements == old(p.statements)
        && st' == Defined(old(p.statements)[..k], env, st)
  {
    ghost var original := p.statements;
    var removed: seq<nat> := [];
    st' := st;
    var i := 0;
    while i < |p.statements|
      invariant p.statements == original
      invariant 0 <= i <= |original|
      invariant st' == Defined(original[..i], env, st)
      invariant forall j | 0 <= j < |removed| :: removed[j] < i && IsMacroDef(original[removed[j]])
      invariant forall j, k | 0 <= j < k < |removed| :: removed[j] < removed[k]
      invariant forall k | 0 <= k < i && IsMacroDef(original[k]) :: k in removed
      invariant forall k | 0 <= k < i :: !original[k].NilLet?
    {
      if p.statements[i].NilLet? {
        FirstNilLetIs(original, i);
        return Panic(NilDereference), st';
      }
      assert original[..i + 1][..i] == original[..i];
      if IsMacroDef(p.statements[i]) {
        var r := AddMacro(p.statements[i], env, st');
        st' := r.value;
        removed := removed + [i];
      }
      i := i + 1;
    }
    assert original[..i] == original;
    FirstNilLetIs(original, i);
    DeleteMarked(p, removed);
    r := Ok(());
  }

  /** The deletion loop of `DefineMacros`: `slices.Delete` at each recorded index, from the last to the first. */
  method DeleteMarked(p: Program, removed: seq<nat>)
    requires Marks(removed, p.statements)
    modifies p
    ensures p.statements == Remaining(old(p.statements))
  {
    ghost var original := p.statements;
    var k := |removed|;
    ghost var cut := |original|;
    RemainingNone(original[cut..]);
    while k > 0
      invariant 0 <= k <= |removed|
      invariant cut <= |original|
      invariant k < |removed| ==> cut == removed[k]
      invariant k == |removed| ==> cut == |original|
      invariant p.statements == original[..cut] + Remaining(original[cut..])
    {
      var a := removed[k - 1];
      UnmarkedBetween(original, a, cut, removed, k);
      RemoveOne(original, a, cut);
      assert p.statements[..a] == original[..a];
      assert p.statements[a + 1..] == original[a + 1..cut] + Remaining(original[cut..]);
      p.statements := p.statements[..a] + p.statements[a + 1..];
      k := k - 1;
      cut := a;
    }
    UnmarkedBefore(original, cut, removed);
    RemoveNoneBefore(original, cut);
  }

  /** The recorded indices: increasing, each a macro definition, and every macro definition among them. */
  ghost predicate Marks(removed: seq<nat>, ss: seq<Stmt>)
  {
    (forall j | 0 <= j < |removed| :: removed[j] < |ss| && IsMacroDef(ss[removed[j]]))
    && (forall j, l | 0 <= j < l < |removed| :: removed[j] < removed[l])
    && (forall l | 0 <= l < |ss| && IsMacroDef(ss[l]) :: l in removed)
  }

  /** After the last deletion, the statements before the first recorded index were all kept. */
  lemma {:induction false} RemoveNoneBefore(original: seq<Stmt>, cut: nat)
    requires cut <= |original|
    requires forall j | 0 <= j < cut :: !IsMacroDef(original[j])
    ensures original[..cut] + Remaining(original[cut..]) == Remaining(original)
    decreases cut
  {
    if cut > 0 {
      var rest := original[1..];
      RemoveNoneBefore(rest, cut - 1);
      assert rest[..cut - 1] == original[1..cut];
      assert rest[cut - 1..] == original[cut..];
      assert [original[0]] + original[1..cut] == original[..cut];
    }
  }

  /** No statement before the first recorded index is a macro definition. */
  lemma UnmarkedBefore(original: seq<Stmt>, cut: nat, removed: seq<nat>)
    requires Marks(removed, original) && cut <= |original|
    requires 0 < |removed| ==> cut == removed[0]
    ensures forall j | 0 <= j < cut :: !IsMacroDef(original[j])
  {
    forall j | 0 <= j < cut
      ensures !IsMacroDef(original[j])
    {
      forall m | 0 <= m < |removed|
        ensures removed[m] != j
      {
        if 0 < m {
          assert removed[0] < removed[m];
        }
      }
    }
  }

  /** One deletion step: the statements between `removed[k-1]` and `cut` are kept whole. */
  lemma RemoveOne(original: seq<Stmt>, a: nat, cut: nat)
    requires a < cut <= |original| && IsMacroDef(original[a])
    requires forall i | a < i < cut :: !IsMacroDef(original[i])
    ensures Remaining(original[a..]) == original[a + 1..cut] + Remaining(original[cut..])
  {
    var mid := original[a + 1..cut];
    assert forall j | 0 <= j < |mid| :: mid[j] == original[a + 1 + j];
    RemainingNone(mid);
    var rest := original[a..];
    assert rest[0] == original[a] && IsMacroDef(rest[0]);
    assert rest[1..] == mid + original[cut..];
    RemainingAppend(mid, original[cut..]);
  }

  /** No statement strictly between two consecutive recorded indices is a macro definition. */
  lemma UnmarkedBetween(original: seq<Stmt>, a: nat, cut: nat, removed: seq<nat>, k: nat)
    requires Marks(removed, original)
    requires 0 < k <= |removed| && a == removed[k - 1] && cut <= |original|
    requires k < |removed| ==> cut == removed[k]
    requires k == |removed| ==> cut == |original|
    ensures a < cut
    ensures forall i | a < i < cut :: !IsMacroDef(original[i])
  {
    forall i | a < i < cut
      ensures !IsMacroDef(original[i])
    {
      forall m | 0 <= m < |removed|
        ensures removed[m] != i
      {
        if m < k - 1 {
          assert removed[m] < removed[k - 1];
        } else if k < m {
          assert removed[k] < removed[m];
        }
      }
    }
  }

  lemma {:induction false} RemainingNone(ss: seq<Stmt>)
    requires forall j | 0 <= j < |ss| :: !IsMacroDef(ss[j])
    ensures Remaining(ss) == ss
    decreases |ss|
  {
    if ss != [] {
      RemainingNone(ss[1..]);
      assert [ss[0]] + ss[1..] == ss;
    }
  }

  lemma {:induction false} RemainingAppend(a: seq<Stmt>, b: seq<Stmt>)
    ensures Remaining(a + b) == Remaining(a) + Remaining(b)
    decreases |a|
  {
    if a == [] {
      assert a + b == b;
    } else {
      assert (a + b)[0] == a[0] && (a + b)[1..] == a[1..] + b;
      RemainingAppend(a[1..], b);
    }
  }

  // ---------------------------------------------------------------------------
  // Properties of macro definition

  /** What `DefineMacros` leaves is exactly the statements that are not macro definitions. */
  lemma {:induction false} RemainingIsFilter(ss: seq<Stmt>)
    ensures forall s <- Remaining(ss) :: s in ss && !IsMacroDef(s)
    ensures forall j | 0 <= j < |ss| && !IsMacroDef(ss[j]) :: ss[j] in Remaining(ss)
    decreases |ss|
  {
    if ss != [] {
      RemainingIsFilter(ss[1..]);
      forall j | 0 <= j < |ss| && !IsMacroDef(ss[j])
        ensures ss[j] in Remaining(ss)
      {
        if j > 0 {
          assert ss[j] == ss[1..][j - 1];
        }
      }
    }
  }

  /** Macro definition is idempotent: a second pass keeps every statement and binds nothing. */
  lemma SecondDefinePassChangesNothing(ss: seq<Stmt>, env: ScopeRef, st: Store)
    requires env < |st.scopes|
    ensures Remaining(Remaining(ss)) == Remaining(ss)
    ensures Defined(Remaining(ss), env, st) == st
  {
    RemainingIsFilter(ss);
    var r := Remaining(ss);
    assert forall j | 0 <= j < |r| :: !IsMacroDef(r[j]) by {
      forall j | 0 <= j < |r| ensures !IsMacroDef(r[j]) { assert r[j] in r; }
    }
    RemainingNone(r);
    DefinedNone(r, env, st);
  }

  lemma {:induction false} DefinedNone(ss: seq<Stmt>, env: ScopeRef, st: Store)
    requires env < |st.scopes|
    requires forall j | 0 <= j < |ss| :: !IsMacroDef(ss[j])
    ensures Defined(ss, env, st) == st
    decreases |ss|
  {
    if ss != [] {
      DefinedNone(ss[..|ss| - 1], env, st);
    }
  }

  /**
   * After definition, a name some macro definition binds resolves, from
   * `env`, to the last such macro; any other name resolves, from every
   * scope, as before.
   */
  lemma {:induction false} DefinedLookup(ss: seq<Stmt>, env: ScopeRef, st: Store, x: string)
    requires env < |st.scopes|
    ensures (forall j | 0 <= j < |ss| :: !Defines(ss[j], x))
      ==> forall ref :: Lookup(Defined(ss, env, st), ref, x) == Lookup(st, ref, x)
    ensures forall i | 0 <= i < |ss| && Defines(ss[i], x) && (forall j | i < j < |ss| :: !Defines(ss[j], x))
      :: Lookup(Defined(ss, env, st), env, x) == Some(MacroOf(ss[i], env))
    decreases |ss|
  {
    if forall j | 0 <= j < |ss| :: !Defines(ss[j], x) {
      DefinedKeeps(ss, env, st, x);
    }
    forall i | 0 <= i < |ss| && Defines(ss[i], x) && (forall j | i < j < |ss| :: !Defines(ss[j], x))
      ensures Lookup(Defined(ss, env, st), env, x) == Some(MacroOf(ss[i], env))
    {
      DefinedLast(ss, env, st, x, i);
    }
  }

  /** A name no definition binds resolves, from every scope, as before. */
  lemma {:induction false} DefinedKeeps(ss: seq<Stmt>, env: ScopeRef, st: Store, x: string)
    requires env < |st.scopes|
    requires forall j | 0 <= j < |ss| :: !Defines(ss[j], x)
    ensures forall ref :: Lookup(Defined(ss, env, st), ref, x) == Lookup(st, ref, x)
    decreases |ss|
  {
    if ss != [] {
      var init := ss[..|ss| - 1];
      var s := ss[|ss| - 1];
      assert forall j | 0 <= j < |init| :: init[j] == ss[j];
      DefinedKeeps(init, env, st, x);
      if IsMacroDef(s) {
        var st1 := Defined(init, env, st);
        forall ref
          ensures Lookup(Define(st1, env, s.name, MacroOf(s, env)), ref, x) == Lookup(st1, ref, x)
        {
          DefineKeepsOtherNames(st1, env, s.name, MacroOf(s, env), ref, x);
        }
      }
    }
  }

  /** A name definition `i` binds and no later one does resolves, from `env`, to definition `i`'s macro. */
  lemma {:induction false} DefinedLast(ss: seq<Stmt>, env: ScopeRef, st: Store, x: string, i: nat)
    requires env < |st.scopes|
    requires i < |ss| && Defines(ss[i], x) && forall j | i < j < |ss| :: !Defines(ss[j], x)
    ensures Lookup(Defined(ss, env, st), env, x) == Some(MacroOf(ss[i], env))
    decreases |ss|
  {
    var init := ss[..|ss| - 1];
    var s := ss[|ss| - 1];
    var st1 := Defined(init, env, st);
    if i == |ss| - 1 {
      DefineThenLookup(st1, env, x, MacroOf(s, env));
    } else {
      assert init[i] == ss[i];
      assert forall j | i < j < |init| :: init[j] == ss[j];
      DefinedLast(init, env, st, x, i);
      if IsMacroDef(s) {
        DefineKeepsOtherNames(st1, env, s.name, MacroOf(s, env), env, x);
      }
    }
  }

  // ---------------------------------------------------------------------------
  // Macro expansion

  /** The panic of a macro whose body yields anything but a quote. */
  const NotQuote := "macros should only return QUOTEs(AST-nodes)"

  /** `isMacroCall`: the callee is an identifier that resolves, from `env`, to a macro. */
  function MacroCalled(call: Expr, env: ScopeRef, st: Store): (m: Option<Value>)
    requires call.Call?
    ensures m.Some? <==> call.callee.Ident? && Lookup(st, env, call.callee.name).Some?
                         && Lookup(st, env, call.callee.name).value.Macro?
    ensures m.Some? ==> m == Lookup(st, env, call.callee.name)
  {
    if !call.callee.Ident? then None else
    match Lookup(st, env, call.callee.name)
    case Some(m) => if m.Macro? then Some(m) else None
    case None => None
  }

  /** Each argument node, unevaluated, wrapped in a quote. */
  function QuotedArgs(args: seq<Expr>): (vs: seq<Value>)
    ensures |vs| == |args| && forall i | 0 <= i < |args| :: vs[i] == Quote(args[i])
  {
    seq(|args|, i requires 0 <= i < |args| => Quote(args[i]))
  }

  /** The scope a macro body runs in: a child of `env` with the quoted arguments bound. */
  function ExpansionScope(params: seq<string>, args: seq<Expr>, env: ScopeRef, s: Store): (r: (Store, ScopeRef))
    requires |args| <= |params|
    ensures r.1 == |s.scopes| && |r.0.scopes| == |s.scopes| + 1 && r.0.allocations == s.allocations
    ensures r.0.scopes[..|s.scopes|] == s.scopes && r.0.scopes[r.1].outer == Some(env)
  {
    var (s1, c) := NewScope(s, env);
    var s2 := Bind(s1, c, params[..|args|], QuotedArgs(args));
    assert forall r | 0 <= r < |s.scopes| :: s2.scopes[r] == s.scopes[r];
    (s2, c)
  }

  /**
   * The modifier of `ExpandMacros`: a call of a macro becomes the node its
   * body's quote holds. The body runs in a new child of the expansion scope
   * `env` (not of the scope the macro was defined in); more arguments than
   * parameters overrun the parameter list; a body that fails with an error
   * leaves the call as it is; a body yielding anything but a quote panics.
   * Every other node stays.
   */
  function ExpandAt(x: Expr, env: ScopeRef, s: Store, fuel: nat): (r: (Outcome<Option<Expr>>, Store))
    ensures Preserves(s, r.1, |s.scopes|)
    ensures !x.Call? || MacroCalled(x, env, s).None? ==> r == (Ok(Some(x)), s)
    ensures r.0.Ok? ==> r.0.value.Some?
  {
    if !x.Call? then (Ok(Some(x)), s) else
    match MacroCalled(x, env, s)
    case None => (Ok(Some(x)), s)
    case Some(m) =>
      if |m.params| < |x.args| then
        (Panic(IndexOutOfRange(|m.params|, |m.params|)), NewScope(s, env).0)
      else
        var (s2, c) := ExpansionScope(m.params, x.args, env, s);
        var (v, s3) := BlockFrom(m.body.stmts, c, s2, fuel, Nil);
        if v.Err? then (Ok(Some(x)), s3)
        else if !v.Ok? then (v.Forward(), s3)
        else if v.value.Quote? then (Ok(Some(v.value.node)), s3)
        else (Panic(NotQuote), s3)
  }

  /** The modifier handed to `Modify`. */
  function Expander(env: ScopeRef, fuel: nat): (f: Modify.Modifier<Store>)
    ensures Modify.Keeps(f, (a: Store, b: Store) => Preserves(a, b, |a.scopes|))
  {
    (x: Expr, s: Store) => ExpandAt(x, env, s, fuel)
  }

  lemma ExpansionKept()
    ensures Modify.PreOrder((a: Store, b: Store) => Preserves(a, b, |a.scopes|))
  {
  }

  /**
   * `ExpandMacros`: the program's statements rewritten in place by `Modify`
   * with the expansion modifier. No scope that existed before expansion
   * changes: macro bodies only ever bind in the scopes expansion creates.
   */
  method ExpandMacros(p: Program, env: ScopeRef, st: Store, fuel: nat) returns (res: Outcome<Program>, st': Store)
    modifies p
    ensures var (r, t) := Modify.ModifyStmts(old(p.statements), Expander(env, fuel), st);
      st' == t && res.Ok? == r.Ok? && (r.Ok? ==> res.value == p && p.statements == r.value)
      && (!r.Ok? ==> res == r.Forward())
    ensures Preserves(st, st', |st.scopes|)
  {
    ghost var original := p.statements;
    res, st' := Modify.ModifyProgram(p, Expander(env, fuel), st);
    ExpansionKept();
    Modify.KeepsStmts(original, Expander(env, fuel), st, (a: Store, b: Store) => Preserves(a, b, |a.scopes|));
  }

  // ---------------------------------------------------------------------------
  // Properties of macro expansion

  /** Expansion leaves every name bound before it resolving, from every earlier scope, as before. */
  lemma ExpansionKeepsBindings(ss: seq<Stmt>, env: ScopeRef, st: Store, fuel: nat, ref: ScopeRef, x: string)
    requires ref < |st.scopes|
    ensures Lookup(Modify.ModifyStmts(ss, Expander(env, fuel), st).1, ref, x) == Lookup(st, ref, x)
  {
    ExpansionKept();
    Modify.KeepsStmts(ss, Expander(env, fuel), st, (a: Store, b: Store) => Preserves(a, b, |a.scopes|));
    var st' := Modify.ModifyStmts(ss, Expander(env, fuel), st).1;
    LookupIgnoresLaterScopes(st, st', ref, x);
  }

  /** A program in which no call names a macro comes out of expansion unchanged, with the store. */
  lemma ExpandWithoutMacroCalls(ss: seq<Stmt>, env: ScopeRef, st: Store, fuel: nat)
    requires Modify.ModifiableStmts(ss)
    requires forall x <- Modify.StmtsLeaves(ss) | x.Call? :: MacroCalled(x, env, st).None?
    ensures Modify.ModifyStmts(ss, Expander(env, fuel), st) == (Ok(ss), st)
  {
    var f := Expander(env, fuel);
    forall x <- Modify.StmtsLeaves(ss)
      ensures Modify.Fixes(f, x, st)
    {
      assert f(x, st) == ExpandAt(x, env, st, fuel);
    }
    Modify.FixedStmts(ss, f, st);
  }

  /**
   * Inside a macro body, each parameter that has an argument is bound to the
   * argument node quoted; every other name resolves as in the expansion scope.
   */
  lemma ExpansionScopeBinds(params: seq<string>, args: seq<Expr>, env: ScopeRef, s: Store, i: nat, x: string)
    requires Valid(s) && env < |s.scopes| && |args| <= |params|
    ensures var (s2, c) := ExpansionScope(params, args, env, s);
      (i < |args| && params[i] !in params[i + 1..|args|] ==> Lookup(s2, c, params[i]) == Some(Quote(args[i])))
      && (x !in params[..|args|] ==> Lookup(s2, c, x) == Lookup(s, env, x))
  {
    var ps := params[..|args|];
    CallScope(ps, env, QuotedArgs(args), s, x, i);
    if i < |args| {
      assert ps[i] == params[i] && ps[i + 1..] == params[i + 1..|args|];
    }
  }

  /** A macro body that yields a quote replaces the call by the quoted node. */
  lemma QuoteBodyReplacesCall(x: Expr, env: ScopeRef, s: Store, fuel: nat)
    requires x.Call? && MacroCalled(x, env, s).Some?
    requires var m := MacroCalled(x, env, s).value;
      |x.args| <= |m.params|
      && var (s2, c) := ExpansionScope(m.params, x.args, env, s);
      BlockFrom(m.body.stmts, c, s2, fuel, Nil).0.Ok?
      && BlockFrom(m.body.stmts, c, s2, fuel, Nil).0.value.Quote?
    ensures var m := MacroCalled(x, env, s).value;
      var (s2, c) := ExpansionScope(m.params, x.args, env, s);
      var (v, s3) := BlockFrom(m.body.stmts, c, s2, fuel, Nil);
      ExpandAt(x, env, s, fuel) == (Ok(Some(v.value.node)), s3)
  {
  }

  /** A macro body that fails with an error leaves the call in place. */
  lemma FailingBodyKeepsCall(x: Expr, env: ScopeRef, s: Store, fuel: nat)
    requires x.Call? && MacroCalled(x, env, s).Some?
    requires var m := MacroCalled(x, env, s).value;
      |x.args| <= |m.params|
      && BlockFrom(m.body.stmts, ExpansionScope(m.params, x.args, env, s).1, ExpansionScope(m.params, x.args, env, s).0, fuel, Nil).0.Err?
    ensures ExpandAt(x, env, s, fuel).0 == Ok(Some(x))
  {
  }

  /** A macro body that yields a value other than a quote (a bare `return`-wrapped quote included) panics. */
  lemma NonQuoteBodyPanics(x: Expr, env: ScopeRef, s: Store, fuel: nat)
    requires x.Call? && MacroCalled(x, env, s).Some?
    requires var m := MacroCalled(x, env, s).value;
      |x.args| <= |m.params|
      && var (s2, c) := ExpansionScope(m.params, x.args, env, s);
      BlockFrom(m.body.stmts, c, s2, fuel, Nil).0.Ok?
      && !BlockFrom(m.body.stmts, c, s2, fuel, Nil).0.value.Quote?
    ensures ExpandAt(x, env, s, fuel).0 == Panic(NotQuote)
  {
  }

  /** More arguments than parameters index past the parameter list. */
  lemma TooManyArgumentsPanics(x: Expr, env: ScopeRef, s: Store, fuel: nat)
    requires x.Call? && MacroCalled(x, env, s).Some? && |MacroCalled(x, env, s).value.params| < |x.args|
    ensures var n := |MacroCalled(x, env, s).value.params|;
      ExpandAt(x, env, s, fuel).0 == Panic(IndexOutOfRange(n, n))
  {
  }

  // ---------------------------------------------------------------------------
  // Examples

  /** The statements of the definition example: `let number = 1; let f = fn(x, y) { x + y }; let m = macro(x, y) { x + y };` */
  function DefinitionProgram(): seq<Stmt>
  {
    var body := Body(Infix("x", Ident("x"), "+", Ident("y")));
    [Let("let", "number", Some(IntLit("1", 1))),
     Let("let", "f", Some(FnLit("fn", ["x", "y"], body))),
     Let("let", "m", Some(MacroLit("macro", ["x", "y"], body)))]
  }

  /** Of the three statements, the two that do not define a macro remain. */
  lemma DefineRemovesExample()
    ensures Remaining(DefinitionProgram()) == DefinitionProgram()[..2]
  {
    var ss := DefinitionProgram();
    assert ss[1..] == ss[1..2] + [ss[2]];
    RemainingAppend(ss[1..2], [ss[2]]);
    assert Remaining([ss[2]]) == [] by { assert [ss[2]][1..] == []; }
    assert Remaining(ss[1..2]) == [ss[1]] by { assert ss[1..2][1..] == []; }
    assert Remaining(ss) == [ss[0]] + Remaining(ss[1..]);
    assert [ss[0]] + [ss[1]] == ss[..2];
  }

  /** `m` is bound to a macro over `(x, y)` closing over the root scope. */
  lemma DefineBindsExample()
    ensures Lookup(Defined(DefinitionProgram(), 0, RootStore()), 0, "m")
      == Some(Macro(["x", "y"], Body(Infix("x", Ident("x"), "+", Ident("y"))), 0))
  {
    var ss := DefinitionProgram();
    assert |ss| == 3 && Defines(ss[2], "m");
    DefinedLookup(ss, 0, RootStore(), "m");
  }

  /** `number` and `f` stay unbound: they are not macro definitions. */
  lemma DefineSkipsOthersExample()
    ensures Lookup(Defined(DefinitionProgram(), 0, RootStore()), 0, "number") == None
    ensures Lookup(Defined(DefinitionProgram(), 0, RootStore()), 0, "f") == None
  {
    var ss := DefinitionProgram();
    assert |ss| == 3 && !IsMacroDef(ss[0]) && !IsMacroDef(ss[1]) && !Defines(ss[2], "number") && !Defines(ss[2], "f");
    assert Lookup(RootStore(), 0, "number") == None && Lookup(RootStore(), 0, "f") == None;
    DefinedLookup(ss, 0, RootStore(), "number");
    DefinedLookup(ss, 0, RootStore(), "f");
  }

  /** `let e = macro() { quote(1 + 2) }; e();` expands the call to `(1+2)`. */
  lemma ExpandConstantExample(env: ScopeRef, menv: ScopeRef, st: Store, fuel: nat)
    requires Valid(st) && env < |st.scopes|
    requires var sum := Infix("1", IntLit("1", 1), "+", IntLit("2", 2));
      Lookup(st, env, "e") == Some(Macro([], Body(Call("quote", Ident("quote"), [sum])), menv))
    ensures ExpandAt(Call("(", Ident("e"), []), env, st, fuel).0 == Ok(Some(Infix("1", IntLit("1", 1), "+", IntLit("2", 2))))
  {
    var sum := Infix("1", IntLit("1", 1), "+", IntLit("2", 2));
    var (s2, c) := ExpansionScope([], [], env, st);
    QuoteWithoutUnquote("quote", Ident("quote"), sum, c, s2, fuel);
    OneStatementBlock(ExprStmt("e", Call("quote", Ident("quote"), [sum])), c, s2, fuel, Nil);
  }

  /** `unquote(name)`, where `name` is bound to a quoted node, is replaced by that node. */
  lemma UnquoteParameterExample(name: string, node: Expr, c: ScopeRef, s: Store, fuel: nat)
    requires fuel > 0 && Lookup(s, c, name) == Some(Quote(node))
    ensures Modify.ModifySlot(Call("unquote", Ident("unquote"), [Ident(name)]), Unquoter(c, fuel), s) == (Ok(node), s)
  {
    var u := Call("unquote", Ident("unquote"), [Ident(name)]);
    assert Unquoter(c, fuel)(u, s) == UnquoteAt(u, c, s, fuel);
    assert EvalExpr(Ident(name), c, s, fuel - 1) == (Ok(Quote(node)), s);
  }

  /** The body of `reverse`, run where `a` and `b` are bound to quoted nodes, swaps them. */
  lemma ReverseBodyExample(c: ScopeRef, s: Store, fuel: nat, a: Expr, b: Expr)
    requires fuel > 0 && Lookup(s, c, "a") == Some(Quote(a)) && Lookup(s, c, "b") == Some(Quote(b))
    ensures var q := Infix("-", Call("unquote", Ident("unquote"), [Ident("b")]), "-", Call("unquote", Ident("unquote"), [Ident("a")]));
      BlockFrom(Body(Call("quote", Ident("quote"), [q])).stmts, c, s, fuel, Nil).0 == Ok(Quote(Infix("-", b, "-", a)))
  {
    var q := Infix("-", Call("unquote", Ident("unquote"), [Ident("b")]), "-", Call("unquote", Ident("unquote"), [Ident("a")]));
    UnquoteParameterExample("b", b, c, s, fuel);
    UnquoteParameterExample("a", a, c, s, fuel);
    assert QuoteNode(q, c, s, fuel) == (Ok(Quote(Infix("-", b, "-", a))), s);
    QuoteCall("quote", Ident("quote"), q, c, s, fuel);
    OneStatementBlock(ExprStmt("e", Call("quote", Ident("quote"), [q])), c, s, fuel, Nil);
  }

  /**
   * `let reverse = macro(a, b) { quote(unquote(b) - unquote(a)); };` makes
   * `reverse(1 + 2, 3 + 4)` expand to `((3+4)-(1+2))`.
   */
  lemma ExpandReverseExample(env: ScopeRef, menv: ScopeRef, st: Store, fuel: nat, a: Expr, b: Expr)
    requires Valid(st) && env < |st.scopes| && fuel > 0
    requires Lookup(st, env, "reverse") == Some(Macro(["a", "b"], Body(Call("quote", Ident("quote"),
      [Infix("-", Call("unquote", Ident("unquote"), [Ident("b")]), "-", Call("unquote", Ident("unquote"), [Ident("a")]))])), menv))
    ensures ExpandAt(Call("(", Ident("reverse"), [a, b]), env, st, fuel).0 == Ok(Some(Infix("-", b, "-", a)))
  {
    var (s2, c) := ExpansionScope(["a", "b"], [a, b], env, st);
    ExpansionScopeBinds(["a", "b"], [a, b], env, st, 0, "a");
    ExpansionScopeBinds(["a", "b"], [a, b], env, st, 1, "a");
    assert ["a", "b"][1..2] == ["b"] && ["a", "b"][2..2] == [];
    ReverseBodyExample(c, s2, fuel, a, b);
  }
}
