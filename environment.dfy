/**
 * Name tables. `Environment` is the table of object/environment.go as that
 * file has it: one flat map, with `Get` and `Set`. The evaluator needs more
 * than that file provides (eval/eval.go:163 and eval/macro.go:93 create a
 * scope from a parent and expect lookups to fall through to it), so its
 * scopes are a `Store`: every scope has a table and an optional outer scope,
 * and values refer to scopes by reference, so a closure shares the scope it
 * was created in.
 */
module Env {
  import opened Wrappers
  import opened Object

  /** The message `Get` fails with for an unbound name. */
  function UndefinedMessage(id: string): (m: string)
    ensures "undefined identifier: " <= m && m[|"undefined identifier: "|..] == id
  {
    "undefined identifier: " + id
  }

  class Environment {
    var vars: map<string, Value>

    /** `NewEnvironment()`: no bindings. */
    constructor ()
      ensures vars == map[]
    {
      vars := map[];
    }

    /** The object bound to `id`, or an error naming `id`. */
    method Get(id: string) returns (r: Outcome<Value>)
      ensures r.Ok? <==> id in vars
      ensures r.Ok? ==> r.value == vars[id]
      ensures !r.Ok? ==> r == Err(UndefinedMessage(id))
    {
      if id in vars {
        return Ok(vars[id]);
      }
      return Err(UndefinedMessage(id));
    }

    /** Binds `id` to `obj`, replacing any earlier binding, and returns `obj`; it never fails. */
    method Set(id: string, obj: Value) returns (r: Outcome<Value>)
      modifies this
      ensures vars == old(vars)[id := obj]
      ensures r == Ok(obj)
    {
      vars := vars[id := obj];
      return Ok(obj);
    }
  }

  /** A `Get` right after a `Set` of the same name sees the set object; other names keep their bindings. */
  method SetThenGet(e: Environment, id: string, obj: Value, other: string) returns (r: Outcome<Value>, s: Outcome<Value>)
    requires other != id
    modifies e
    ensures r == Ok(obj)
    ensures s.Ok? <==> other in old(e.vars)
    ensures s.Ok? ==> s.value == old(e.vars)[other]
  {
    var _ := e.Set(id, obj);
    r := e.Get(id);
    s := e.Get(other);
  }

  // ---------------------------------------------------------------------------
  // The evaluator's scopes

  datatype Scope = Scope(vars: map<string, Value>, outer: Option<ScopeRef>)

  /**
   * All scopes created so far, each at the index its reference names, and the
   * number of Boolean objects allocations so far (identities of fresh Booleans).
   */
  datatype Store = Store(scopes: seq<Scope>, allocations: nat)

  /** Every outer reference points to an earlier scope, so every scope chain ends. */
  predicate Valid(st: Store)
  {
    forall r | 0 <= r < |st.scopes| :: st.scopes[r].outer.Some? ==> st.scopes[r].outer.value < r
  }

  /** A store holding one root scope with no bindings, at reference 0. */
  function RootStore(): (st: Store)
    ensures Valid(st) && |st.scopes| == 1
  {
    Store([Scope(map[], None)], 0)
  }

  /** `NewEnvironment(outer)`: an empty scope whose parent is `outer`, and its reference. */
  function NewScope(st: Store, outer: ScopeRef): (r: (Store, ScopeRef))
    ensures r.1 == |st.scopes| && r.0.scopes == st.scopes + [Scope(map[], Some(outer))]
    ensures r.0.allocations == st.allocations
  {
    (Store(st.scopes + [Scope(map[], Some(outer))], st.allocations), |st.scopes|)
  }

  /** Lookup along the chain: the scope's own table first, then its outer scope's, and so on. */
  function Lookup(st: Store, ref: ScopeRef, id: string): (r: Option<Value>)
    ensures r.Some? ==> ref < |st.scopes|
    ensures ref < |st.scopes| && id in st.scopes[ref].vars ==> r == Some(st.scopes[ref].vars[id])
    decreases ref
  {
    if ref >= |st.scopes| then None
    else if id in st.scopes[ref].vars then Some(st.scopes[ref].vars[id])
    else match st.scopes[ref].outer
      case Some(o) => if o < ref then Lookup(st, o, id) else None
      case None => None
  }

  /** `Set` on a scope: binds in that scope's own table only. */
  function Define(st: Store, ref: ScopeRef, id: string, v: Value): (st': Store)
    requires ref < |st.scopes|
    ensures |st'.scopes| == |st.scopes| && st'.allocations == st.allocations
    ensures st'.scopes[ref] == Scope(st.scopes[ref].vars[id := v], st.scopes[ref].outer)
    ensures forall r | 0 <= r < |st.scopes| && r != ref :: st'.scopes[r] == st.scopes[r]
  {
    st.(scopes := st.scopes[ref := Scope(st.scopes[ref].vars[id := v], st.scopes[ref].outer)])
  }

  /**
   * What evaluating under scope `env` may do to the store: add scopes and
   * allocate Booleans, rebind names in `env` itself, and nothing else; in
   * particular no parent link changes and no other existing scope changes.
   */
  predicate Preserves(st: Store, st': Store, env: ScopeRef)
  {
    |st.scopes| <= |st'.scopes| && st.allocations <= st'.allocations
    && (forall r | 0 <= r < |st.scopes| && r != env :: st'.scopes[r] == st.scopes[r])
    && (env < |st.scopes| ==> st'.scopes[env].outer == st.scopes[env].outer)
  }

  lemma PreservesRefl(st: Store, env: ScopeRef)
    ensures Preserves(st, st, env)
  {
  }

  lemma PreservesTrans(st: Store, st1: Store, st2: Store, env: ScopeRef)
    requires Preserves(st, st1, env) && Preserves(st1, st2, env)
    ensures Preserves(st, st2, env)
  {
  }

  /** A store that only grows or rebinds names keeps the chains valid. */
  lemma PreservesValid(st: Store, st': Store, env: ScopeRef)
    requires Valid(st) && Preserves(st, st', env)
    requires forall r | |st.scopes| <= r < |st'.scopes| :: st'.scopes[r].outer.Some? ==> st'.scopes[r].outer.value < r
    ensures Valid(st')
  {
  }

  // ---------------------------------------------------------------------------
  // Properties of scopes

  /** A new scope is empty and valid; lookups in it fall through to its parent. */
  lemma {:induction false} NewScopeFallsThrough(st: Store, outer: ScopeRef, id: string)
    requires Valid(st) && outer < |st.scopes|
    ensures var (st', r) := NewScope(st, outer);
      Valid(st') && Lookup(st', r, id) == Lookup(st, outer, id)
  {
    var (st', r) := NewScope(st, outer);
    LookupIgnoresLaterScopes(st, st', outer, id);
  }

  /** Scopes created later are never reached from an earlier one. */
  lemma {:induction false} LookupIgnoresLaterScopes(st: Store, st': Store, ref: ScopeRef, id: string)
    requires ref < |st.scopes| <= |st'.scopes|
    requires forall r | 0 <= r <= ref :: st'.scopes[r] == st.scopes[r]
    ensures Lookup(st', ref, id) == Lookup(st, ref, id)
    decreases ref
  {
    if id !in st.scopes[ref].vars {
      match st.scopes[ref].outer
      case Some(o) => if o < ref { LookupIgnoresLaterScopes(st, st', o, id); }
      case None =>
    }
  }

  /** After `Define`, the name is found with its new value in that scope. */
  lemma DefineThenLookup(st: Store, ref: ScopeRef, id: string, v: Value)
    requires ref < |st.scopes|
    ensures Lookup(Define(st, ref, id, v), ref, id) == Some(v)
  {
  }

  /** `Define` never changes what other names resolve to, from any scope. */
  lemma {:induction false} DefineKeepsOtherNames(st: Store, ref: ScopeRef, id: string, v: Value, r: ScopeRef, other: string)
    requires ref < |st.scopes| && other != id
    ensures Lookup(Define(st, ref, id, v), r, other) == Lookup(st, r, other)
    decreases r
  {
    var st' := Define(st, ref, id, v);
    if r < |st.scopes| && other !in st.scopes[r].vars {
      assert other !in st'.scopes[r].vars;
      match st.scopes[r].outer
      case Some(o) => if o < r { DefineKeepsOtherNames(st, ref, id, v, o, other); }
      case None =>
    }
  }

  /** Binding in a child scope never changes what its parent (or any earlier scope) resolves. */
  lemma ChildDefineLeavesParent(st: Store, child: ScopeRef, parent: ScopeRef, id: string, v: Value, x: string)
    requires parent < child < |st.scopes|
    ensures Lookup(Define(st, child, id, v), parent, x) == Lookup(st, parent, x)
  {
    LookupIgnoresLaterScopes(st, Define(st, child, id, v), parent, x);
  }

  /** A binding in a child shadows the parent's binding of the same name. */
  lemma ChildShadowsParent(st: Store, outer: ScopeRef, id: string, v: Value)
    requires Valid(st) && outer < |st.scopes|
    ensures var (st1, c) := NewScope(st, outer);
      Lookup(Define(st1, c, id, v), c, id) == Some(v)
      && Lookup(Define(st1, c, id, v), outer, id) == Lookup(st, outer, id)
  {
    var (st1, c) := NewScope(st, outer);
    LookupIgnoresLaterScopes(st, st1, outer, id);
    ChildDefineLeavesParent(st1, c, outer, id, v, id);
  }
}
