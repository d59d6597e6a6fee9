/**
 * The evaluator's operations on values that do not evaluate sub-expressions
 * (eval/eval.go): truthiness, prefix and infix operators, indexing, and the
 * conversion of an unquoted value back into a syntax node.
 */
module Operators {
  import opened Wrappers
  import opened GoInt
  import Text
  import opened Ast
  import opened Object

  /** The Go runtime panic of an integer division by zero. */
  const DivideByZero := "runtime error: integer divide by zero"

  /** Go's `%q` of an operator or a rendering: the text between double quotes (escaping is not modelled). */
  function Quoted(s: string): (q: string)
    ensures |q| == |s| + 2 && q[0] == '"' && q[|q| - 1] == '"' && q[1..|q| - 1] == s
  {
    "\"" + s + "\""
  }

  /** `Inspect()` of an object, which panics as soon as it reaches a nil object inside it. */
  function Shown(v: Value): (r: Outcome<string>)
    ensures r.Ok? <==> !ContainsNil(v)
    ensures r.Ok? ==> r.value == Inspect(v)
    ensures !r.Ok? ==> r == Panic(NilDereference)
  {
    if ContainsNil(v) then Panic(NilDereference) else Ok(Inspect(v))
  }

  // ---------------------------------------------------------------------------
  // Truthiness

  /**
   * `isTrue`: compares the object with the three singletons by identity. Only
   * the FALSE singleton and NULL are false; every other object, an integer 0 or
   * a freshly allocated Boolean holding false included, is true.
   */
  function IsTrue(v: Value): (r: bool)
    ensures r <==> !(v == FALSE || v == Null)
  {
    if v == TRUE then true
    else if v == FALSE then false
    else if v == Null then false
    else true
  }

  // ---------------------------------------------------------------------------
  // Prefix operators

  /** `evalPrefixExpression`. */
  function EvalPrefix(op: string, rhs: Value): (r: Outcome<Value>)
    ensures op == "!" ==> r == Ok(BoolToBoolean(!IsTrue(rhs)))
    ensures op == "-" && rhs.Integer? ==> r == Ok(Integer(Wrap(0 - rhs.intValue as int)))
    ensures op == "-" && rhs.Nil? ==> r == Panic(NilDereference)
    ensures op == "-" && !rhs.Integer? && !rhs.Nil? ==>
      r == Err("expected integer after '-', but got " + Type(rhs) + "\n")
    ensures op != "!" && op != "-" ==> r == Err("unsupported prefix operator: " + Quoted(op) + "\n")
  {
    if op == "!" then
      if rhs == TRUE then Ok(FALSE)
      else if rhs == FALSE then Ok(TRUE)
      else if rhs == Null then Ok(TRUE)
      else Ok(FALSE)
    else if op == "-" then
      match rhs
      case Integer(i) => Ok(Integer(Wrap(0 - i as int)))
      case Nil => Panic(NilDereference)
      case _ => Err("expected integer after '-', but got " + Type(rhs) + "\n")
    else Err("unsupported prefix operator: " + Quoted(op) + "\n")
  }

  // ---------------------------------------------------------------------------
  // Infix operators

  /** The operators `evalInfixInteger` handles. */
  predicate IntegerOperator(op: string)
  {
    op in {"+", "-", "*", "/", "==", "!=", "<", ">"}
  }

  /** `evalInfixInteger`: 64-bit arithmetic, truncating division, and comparisons yielding the singletons. */
  function EvalInfixInteger(op: string, l: Int, r: Int): (res: Outcome<Value>)
    ensures res.Ok? <==> IntegerOperator(op) && !(op == "/" && r == 0)
    ensures op == "/" && r == 0 ==> res == Panic(DivideByZero)
    ensures !IntegerOperator(op) ==> res == Err("unsupported infix operator for integers: " + Quoted(op) + "\n")
    ensures op == "+" ==> res == Ok(Integer(Wrap(l + r)))
    ensures op == "-" ==> res == Ok(Integer(Wrap(l - r)))
    ensures op == "*" ==> res == Ok(Integer(Wrap(l * r)))
    ensures op == "/" && r != 0 ==> res == Ok(Integer(Wrap(TruncDiv(l, r))))
    ensures op in {"==", "!=", "<", ">"} ==>
      res.Ok? && res.value.Boolean? && res.value.ident == Canonical
      && (res.value.boolValue <==>
            (op == "==" && l == r) || (op == "!=" && l != r) || (op == "<" && l < r) || (op == ">" && l > r))
  {
    match op
    case "+" => Ok(Integer(Wrap(l + r)))
    case "-" => Ok(Integer(Wrap(l - r)))
    case "*" => Ok(Integer(Wrap(l * r)))
    case "/" => if r == 0 then Panic(DivideByZero) else Ok(Integer(Wrap(TruncDiv(l, r))))
    case "==" => Ok(BoolToBoolean(l == r))
    case "!=" => Ok(BoolToBoolean(l != r))
    case "<" => Ok(BoolToBoolean(l < r))
    case ">" => Ok(BoolToBoolean(l > r))
    case _ => Err("unsupported infix operator for integers: " + Quoted(op) + "\n")
  }

  /**
   * `evalInfixString`: concatenation, and comparisons that allocate a new
   * Boolean object (identity `alloc`) instead of returning a singleton. The
   * second component is the number of Booleans allocated afterwards.
   */
  function EvalInfixString(op: string, l: string, r: string, alloc: nat): (res: (Outcome<Value>, nat))
    ensures op == "+" ==> res == (Ok(Str(l + r)), alloc)
    ensures op == "==" ==> res == (Ok(Boolean(l == r, Fresh(alloc))), alloc + 1)
    ensures op == "!=" ==> res == (Ok(Boolean(l != r, Fresh(alloc))), alloc + 1)
    ensures op !in {"+", "==", "!="} ==>
      res == (Err("unsupported infix operator for strings: " + Quoted(l) + " " + op + " " + Quoted(r) + "\n"), alloc)
  {
    match op
    case "+" => (Ok(Str(l + r)), alloc)
    case "==" => (Ok(Boolean(l == r, Fresh(alloc))), alloc + 1)
    case "!=" => (Ok(Boolean(l != r, Fresh(alloc))), alloc + 1)
    case _ =>
      var msg := "unsupported infix operator for strings: " + Quoted(l) + " " + op + " " + Quoted(r) + "\n";
      (Err(msg), alloc)
  }

  /** The error for operands of kinds the operator does not combine; rendering a nil inside either panics. */
  function IllegalOperands(op: string, l: Value, r: Value): (res: Outcome<Value>)
    ensures res.Panic? <==> ContainsNil(l) || ContainsNil(r)
    ensures !res.Panic? ==>
      res == Err("illegal operands for " + Quoted(op) + ", lhs: " + Quoted(Inspect(l)) + ", rhs: " + Quoted(Inspect(r)) + "\n")
  {
    if ContainsNil(l) || ContainsNil(r) then Panic(NilDereference)
    else Err("illegal operands for " + Quoted(op) + ", lhs: " + Quoted(Inspect(l)) + ", rhs: " + Quoted(Inspect(r)) + "\n")
  }

  /**
   * `evalInfixExpression`: dispatch on both type tags (a nil operand panics in
   * `Type()`); Booleans compare by identity. The second component is the
   * number of Booleans allocated afterwards.
   */
  function EvalInfix(op: string, l: Value, r: Value, alloc: nat): (res: (Outcome<Value>, nat))
    ensures l.Nil? || r.Nil? ==> res == (Panic(NilDereference), alloc)
    ensures l.Integer? && r.Integer? ==> res == (EvalInfixInteger(op, l.intValue, r.intValue), alloc)
    ensures l.Str? && r.Str? ==> res == EvalInfixString(op, l.strValue, r.strValue, alloc)
    ensures l.Boolean? && r.Boolean? && op == "==" ==> res == (Ok(BoolToBoolean(l == r)), alloc)
    ensures l.Boolean? && r.Boolean? && op == "!=" ==> res == (Ok(BoolToBoolean(l != r)), alloc)
    ensures (!l.Nil? && !r.Nil? && !(l.Integer? && r.Integer?) && !(l.Str? && r.Str?)
             && !(l.Boolean? && r.Boolean? && op in {"==", "!="})) ==> res == (IllegalOperands(op, l, r), alloc)
  {
    if l.Nil? || r.Nil? then (Panic(NilDereference), alloc)
    else if l.Integer? && r.Integer? then (EvalInfixInteger(op, l.intValue, r.intValue), alloc)
    else if l.Str? && r.Str? then EvalInfixString(op, l.strValue, r.strValue, alloc)
    else if l.Boolean? && r.Boolean? && op == "==" then (Ok(BoolToBoolean(l == r)), alloc)
    else if l.Boolean? && r.Boolean? && op == "!=" then (Ok(BoolToBoolean(l != r)), alloc)
    else (IllegalOperands(op, l, r), alloc)
  }

  // ---------------------------------------------------------------------------
  // Indexing

  function OutOfBounds(len: nat, i: Int): string
  {
    "index out of bounds, len:" + Text.Decimal(len) + ", visit:" + Text.Decimal(i)
  }

  /**
   * `evalIndexExpression` after both operands are evaluated: an array with an
   * integer index, a hash with any index, or an error naming both type tags.
   */
  function EvalIndex(left: Value, index: Value): (r: Outcome<Value>)
    ensures left.Nil? || index.Nil? ==> r == Panic(NilDereference)
    ensures left.Array? && index.Integer? ==>
      r == (if 0 <= index.intValue < |left.elements| then Ok(left.elements[index.intValue])
            else Err(OutOfBounds(|left.elements|, index.intValue)))
    ensures left.Hash? && !index.Nil? && !Hashable(index) ==> r == Err(Type(index) + " is not hashable")
    ensures left.Hash? && Hashable(index) ==>
      r == Ok(match Find(left.entries, HashKeyOf(index)) case Some(e) => e.value case None => Null)
    ensures !left.Nil? && !index.Nil? && !(left.Array? && index.Integer?) && !left.Hash? ==>
      r == Err("index " + Type(index) + " on " + Type(left) + " is not supported")
  {
    if left.Nil? || index.Nil? then Panic(NilDereference)
    else if left.Array? && index.Integer? then
      if index.intValue >= |left.elements| || index.intValue < 0 then Err(OutOfBounds(|left.elements|, index.intValue))
      else Ok(left.elements[index.intValue])
    else if left.Hash? then
      if !Hashable(index) then Err(Type(index) + " is not hashable")
      else match Find(left.entries, HashKeyOf(index))
        case None => Ok(Null)
        case Some(e) => Ok(e.value)
    else Err("index " + Type(index) + " on " + Type(left) + " is not supported")
  }

  // ---------------------------------------------------------------------------
  // Quoting

  /** `isUnquote`: a call whose callee's token literal is `unquote`, with exactly one argument. */
  predicate IsUnquote(e: Expr)
  {
    e.Call? && ExprTokenLiteral(e.callee) == "unquote" && |e.args| == 1
  }

  /**
   * The conversion in `evalNewAstNode` of an unquoted value into a node: an
   * integer literal, the quoted node itself, or a Boolean literal; any other
   * value is an error naming its rendering.
   */
  function NewAstNode(v: Value): (r: Outcome<Expr>)
    ensures v.Integer? ==> r == Ok(IntLit(Text.Decimal(v.intValue), v.intValue))
    ensures v.Quote? ==> r == Ok(v.node)
    ensures v.Boolean? ==> r == Ok(BoolLit(if v.boolValue then "true" else "false", v.boolValue))
    ensures !v.Integer? && !v.Quote? && !v.Boolean? ==>
      r == (match Shown(v) case Ok(s) => Err("TODO: cannot convert " + s + " into ast") case _ => Panic(NilDereference))
  {
    match v
    case Integer(i) => Ok(IntLit(Text.Decimal(i), i))
    case Quote(n) => Ok(n)
    case Boolean(b, _) => Ok(BoolLit(if b then "true" else "false", b))
    case _ =>
      match Shown(v)
      case Ok(s) => Err("TODO: cannot convert " + s + " into ast")
      case _ => Panic(NilDereference)
  }

  // ---------------------------------------------------------------------------
  // Properties

  /** Identity, not value, decides truth: a fresh Boolean holding false is true, and so is 0. */
  lemma TruthIsIdentity(id: nat)
    ensures IsTrue(Boolean(false, Fresh(id))) && IsTrue(Integer(0)) && IsTrue(Str(""))
    ensures !IsTrue(FALSE) && !IsTrue(Null) && IsTrue(TRUE)
  {
  }

  /** `!` is an involution on the two singletons and maps everything else to one of them. */
  lemma BangBang(v: Value)
    ensures EvalPrefix("!", v).Ok? && EvalPrefix("!", v).value in {TRUE, FALSE}
    ensures EvalPrefix("!", EvalPrefix("!", v).value) == Ok(BoolToBoolean(IsTrue(v)))
  {
  }

  /**
   * String comparisons yield Booleans that are always true in a condition,
   * whatever they hold, and that never equal the singletons, so
   * `("a" == "a") == true` is false.
   */
  lemma StringComparisonsAreAlwaysTrue(op: string, l: string, r: string, alloc: nat)
    requires op in {"==", "!="}
    ensures var (v, n) := EvalInfix(op, Str(l), Str(r), alloc);
      v.Ok? && IsTrue(v.value) && n == alloc + 1
      && EvalInfix("==", v.value, TRUE, n).0 == Ok(FALSE)
      && EvalInfix("==", v.value, FALSE, n).0 == Ok(FALSE)
  {
  }

  /** Integer arithmetic wraps around at 64 bits; `MinInt / -1` wraps back to `MinInt`. */
  lemma IntegerOverflowWraps()
    ensures EvalInfixInteger("+", MaxInt, 1) == Ok(Integer(MinInt))
    ensures EvalInfixInteger("/", MinInt, -1) == Ok(Integer(MinInt))
    ensures EvalPrefix("-", Integer(MinInt)) == Ok(Integer(MinInt))
    ensures EvalInfixInteger("/", -7, 2) == Ok(Integer(-3))
  {
    assert TruncDiv(MinInt, -1) == MaxInt + 1;
    assert TruncDiv(-7, 2) == -3;
  }

  /** Indexing an array is defined exactly on `0 <= i < len`; a hash finds what was last put under the key. */
  lemma IndexFindsStored(es: seq<Value>, i: Int, ps: seq<HashEntry>, k: Value, v: Value)
    requires Hashable(k)
    ensures EvalIndex(Array(es), Integer(i)).Ok? <==> 0 <= i < |es|
    ensures EvalIndex(Hash(Put(ps, HashEntry(HashKeyOf(k), k, v))), k) == Ok(v)
  {
    FindAfterPut(ps, HashEntry(HashKeyOf(k), k, v), HashKeyOf(k));
  }

  /** In a hash with distinct keys, indexing by a stored key yields the value stored with it. */
  lemma IndexStoredKey(ps: seq<HashEntry>, e: HashEntry)
    requires DistinctKeys(ps) && e in ps && Hashable(e.key) && e.hk == HashKeyOf(e.key)
    ensures EvalIndex(Hash(ps), e.key) == Ok(e.value)
  {
    var i :| 0 <= i < |ps| && ps[i] == e;
    assert forall j | 0 <= j < |ps| && ps[j].hk == e.hk :: j == i;
  }
}
