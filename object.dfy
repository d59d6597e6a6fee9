/**
 * Runtime values of the interpreter (object/object.go): their type tags, their
 * `Inspect` renderings and the hash keys of the hashable kinds.
 */
module Object {
  import opened Wrappers
  import opened GoInt
  import Text
  import opened Ast

  type ObjectType = string

  const INTEGER_OBJ: ObjectType := "INTEGER"
  const STRING_OBJ: ObjectType := "STRING"
  const HASH_OBJ: ObjectType := "HASH"
  const BOOLEAN_OBJ: ObjectType := "BOOLEAN"
  const ARRAY_OBJ: ObjectType := "ARRAY"
  const NULL_OBJ: ObjectType := "NULL"
  const RETURN_VALUE_OBJ: ObjectType := "RETURN_VALUE"
  const FUNCTION_OBJ: ObjectType := "FUNCTION"
  const BUILTIN_OBJ: ObjectType := "BUILTIN"
  const QUOTE_OBJ: ObjectType := "QUOTE"

  /** A reference to a scope of the evaluator (a Go `*Environment`). */
  type ScopeRef = nat

  /**
   * Which Boolean object a Boolean value is: one of the two singletons the
   * evaluator hands out, or an object allocated afresh (by a string
   * comparison), told apart by its allocation number.
   */
  datatype BoolIdent = Canonical | Fresh(id: nat)

  /** The five builtins, by name. */
  datatype BuiltinName = Len | First | Last | Rest | Push
  {
    function Name(): string
    {
      match this
      case Len => "len"
      case First => "first"
      case Last => "last"
      case Rest => "rest"
      case Push => "push"
    }
  }

  /**
   * A runtime object. `Nil` is Go's nil `Object`: what an empty program or
   * block evaluates to, and what any method call on it dereferences.
   */
  datatype Value =
    | Integer(intValue: Int)
    | Boolean(boolValue: bool, ident: BoolIdent)
    | Null
    | ReturnValue(inner: Value)
    | Function(params: seq<string>, body: Block, env: ScopeRef)
    | Str(strValue: string)
    | Builtin(builtin: BuiltinName)
    | Array(elements: seq<Value>)
    | Hash(entries: seq<HashEntry>)
    | Quote(node: Expr)
    | Macro(params: seq<string>, body: Block, env: ScopeRef)
    | Nil

  /** A hash key: the type tag of the key object and a 64-bit digest. */
  datatype HashKey = HashKey(typ: ObjectType, digest: nat)

  /** One entry of a hash: the key's hash key, and the original key and value objects. */
  datatype HashEntry = HashEntry(hk: HashKey, key: Value, value: Value)

  const TRUE: Value := Boolean(true, Canonical)
  const FALSE: Value := Boolean(false, Canonical)

  /** Go's `boolToBoolean`: the singleton for `b`. */
  function BoolToBoolean(b: bool): (r: Value)
    ensures r.Boolean? && r.boolValue == b && r.ident == Canonical
  {
    if b then TRUE else FALSE
  }

  /** Whether the object is, or holds somewhere inside, Go's nil object. */
  predicate ContainsNil(v: Value)
  {
    match v
    case Nil => true
    case ReturnValue(x) => ContainsNil(x)
    case Array(es) => exists i | 0 <= i < |es| :: ContainsNil(es[i])
    case Hash(ps) => exists i | 0 <= i < |ps| :: ContainsNil(ps[i].key) || ContainsNil(ps[i].value)
    case _ => false
  }

  /** `Type()`; calling it on nil is a nil dereference, so nil is excluded. */
  function Type(v: Value): (t: ObjectType)
    requires !v.Nil?
    ensures t == FUNCTION_OBJ <==> v.Function? || v.Macro?
  {
    match v
    case Integer(_) => INTEGER_OBJ
    case Boolean(_, _) => BOOLEAN_OBJ
    case Null => NULL_OBJ
    case ReturnValue(_) => RETURN_VALUE_OBJ
    case Function(_, _, _) => FUNCTION_OBJ
    case Str(_) => STRING_OBJ
    case Builtin(_) => BUILTIN_OBJ
    case Array(_) => ARRAY_OBJ
    case Hash(_) => HASH_OBJ
    case Quote(_) => QUOTE_OBJ
    case Macro(_, _, _) => FUNCTION_OBJ
  }

  /** `Inspect()`; every object it reaches must be non-nil. Hash entries appear in their stored order. */
  function Inspect(v: Value): string
    requires !ContainsNil(v)
  {
    match v
    case Integer(i) => Text.Decimal(i)
    case Boolean(b, _) => if b then "true" else "false"
    case Null => "null"
    case ReturnValue(x) => Inspect(x)
    case Function(ps, body, _) => "fn(" + Text.Join(ps, ",") + "){" + BlockString(body) + "}\n"
    case Str(s) => s
    case Builtin(b) => b.Name() + " is a builtin\n"
    case Array(es) =>
      "[" + Text.Join(seq(|es|, i requires 0 <= i < |es| => Inspect(es[i])), ",") + "]"
    case Hash(ps) =>
      "{" + Text.Join(seq(|ps|, i requires 0 <= i < |ps| => Inspect(ps[i].key) + ":" + Inspect(ps[i].value)), ",") + "}"
    case Quote(n) => "QUOTE(" + ExprString(n) + ")"
    case Macro(ps, body, _) => "macro(" + Text.Join(ps, ",") + "){" + BlockString(body) + "}\n"
  }

  /** The kinds that implement `Hashable`. */
  predicate Hashable(v: Value)
  {
    v.Integer? || v.Boolean? || v.Str?
  }

  /** `HashKey()` of the hashable kinds. */
  function HashKeyOf(v: Value): (k: HashKey)
    requires Hashable(v)
    ensures k.typ == Type(v) && k.digest < TwoTo64
  {
    match v
    case Integer(i) => HashKey(INTEGER_OBJ, AsUint64(i))
    case Boolean(b, _) => HashKey(BOOLEAN_OBJ, if b then 1 else 0)
    case Str(s) => HashKey(STRING_OBJ, Fnv1a64(Text.Utf8(s)) as nat)
  }

  const FnvOffsetBasis: bv64 := 0xcbf2_9ce4_8422_2325
  const FnvPrime: bv64 := 0x100_0000_01b3

  /** The 64-bit FNV-1a digest of a byte string (Go's `hash/fnv` `New64a`). */
  function Fnv1a64(bs: seq<Text.Byte>): bv64
  {
    FnvFrom(FnvOffsetBasis, bs)
  }

  function FnvFrom(h: bv64, bs: seq<Text.Byte>): bv64
    decreases |bs|
  {
    if bs == [] then h else FnvFrom(FnvStep(h, bs[0]), bs[1..])
  }

  /** One byte of FNV-1a: xor the byte in, then multiply by the prime (modulo 2^64). */
  function FnvStep(h: bv64, b: Text.Byte): bv64
  {
    (h ^ b as bv64) * FnvPrime
  }

  /**
   * The digest is computed a byte at a time, as `Write` does: the digest of a
   * byte string extended by one byte is the digest so far, xor the byte,
   * times the FNV prime.
   */
  lemma FnvByteStep(bs: seq<Text.Byte>, b: Text.Byte)
    ensures Fnv1a64(bs + [b]) == FnvStep(Fnv1a64(bs), b)
  {
    FnvAppend(FnvOffsetBasis, bs, [b]);
    assert [b][1..] == [];
  }

  lemma {:induction false} FnvAppend(h: bv64, a: seq<Text.Byte>, b: seq<Text.Byte>)
    ensures FnvFrom(h, a + b) == FnvFrom(FnvFrom(h, a), b)
    decreases |a|
  {
    if a == [] {
      assert a + b == b;
    } else {
      assert (a + b)[0] == a[0] && (a + b)[1..] == a[1..] + b;
      FnvAppend(FnvStep(h, a[0]), a[1..], b);
    }
  }

  /** The published FNV-1a test vector: the 64-bit digest of "a" is 0xaf63dc4c8601ec8c. */
  lemma FnvExample()
    ensures Fnv1a64([0x61]) == 0xaf63_dc4c_8601_ec8c
  {
    assert FnvStep(FnvOffsetBasis, 0x61) == 0xaf63_dc4c_8601_ec8c;
  }

  // ---------------------------------------------------------------------------
  // Hash entries: a map from hash key to (key, value), kept as a sequence

  /** No two entries share a hash key. */
  predicate DistinctKeys(ps: seq<HashEntry>)
  {
    forall i, j | 0 <= i < j < |ps| :: ps[i].hk != ps[j].hk
  }

  /** The entry stored under `hk`, if any. */
  function Find(ps: seq<HashEntry>, hk: HashKey): (r: Option<HashEntry>)
    ensures r.None? <==> forall i | 0 <= i < |ps| :: ps[i].hk != hk
    ensures r.Some? ==> r.value in ps && r.value.hk == hk
  {
    if ps == [] then None
    else if ps[0].hk == hk then Some(ps[0])
    else Find(ps[1..], hk)
  }

  /** `pairs[hk] = HashPair{k, v}`: replaces the entry under the same hash key in place, or appends one. */
  function Put(ps: seq<HashEntry>, e: HashEntry): (r: seq<HashEntry>)
    ensures |r| == |ps| || |r| == |ps| + 1
    ensures forall i | 0 <= i < |ps| && ps[i].hk != e.hk :: r[i] == ps[i]
  {
    if ps == [] then [e]
    else if ps[0].hk == e.hk then [e] + ps[1..]
    else [ps[0]] + Put(ps[1..], e)
  }

  /** After a put, the put entry is found under its hash key, and every other key finds what it found before. */
  lemma {:induction false} FindAfterPut(ps: seq<HashEntry>, e: HashEntry, hk: HashKey)
    ensures Find(Put(ps, e), hk) == if hk == e.hk then Some(e) else Find(ps, hk)
  {
    if ps != [] && ps[0].hk != e.hk {
      FindAfterPut(ps[1..], e, hk);
    }
  }

  /** A put keeps the hash keys of a hash distinct. */
  lemma {:induction false} PutKeepsKeysDistinct(ps: seq<HashEntry>, e: HashEntry)
    requires DistinctKeys(ps)
    ensures DistinctKeys(Put(ps, e))
  {
    if ps != [] && ps[0].hk != e.hk {
      PutKeepsKeysDistinct(ps[1..], e);
      var r := Put(ps, e);
      forall j | 0 < j < |r|
        ensures r[0].hk != r[j].hk
      {
        FindAfterPut(ps[1..], e, ps[0].hk);
        assert r[j] in Put(ps[1..], e);
        KeyOfMember(Put(ps[1..], e), r[j]);
      }
    }
  }

  lemma KeyOfMember(ps: seq<HashEntry>, x: HashEntry)
    requires x in ps
    ensures Find(ps, x.hk).Some?
  {
    var i :| 0 <= i < |ps| && ps[i] == x;
  }

  // ---------------------------------------------------------------------------
  // Properties

  /** Hash keys carry the type tag, so keys of different kinds never coincide (`2` and `"2"` are different keys). */
  lemma KeysOfDifferentKindsDiffer(a: Value, b: Value)
    requires Hashable(a) && Hashable(b) && Type(a) != Type(b)
    ensures HashKeyOf(a) != HashKeyOf(b)
  {
  }

  /** Integers share a hash key exactly when they are equal; a negative integer's digest is its value plus 2^64. */
  lemma IntegerKeys(i: Int, j: Int)
    ensures HashKeyOf(Integer(i)) == HashKeyOf(Integer(j)) <==> i == j
    ensures i < 0 ==> HashKeyOf(Integer(i)).digest == i + TwoTo64
  {
  }

  /** A Boolean's key is (BOOLEAN, 1) or (BOOLEAN, 0), whatever object holds the value. */
  lemma BooleanKeys(b: bool, id: BoolIdent)
    ensures HashKeyOf(Boolean(b, id)) == HashKeyOf(BoolToBoolean(b))
    ensures HashKeyOf(Boolean(true, id)) != HashKeyOf(Boolean(false, id))
    ensures HashKeyOf(Boolean(true, id)).digest == 1 && HashKeyOf(Boolean(false, id)).digest == 0
  {
  }

  /** The digest of the empty string is the FNV offset basis; a string's key depends on nothing but its bytes. */
  lemma StringKeyDigests(s: string, t: string)
    ensures HashKeyOf(Str("")).digest == 0xcbf2_9ce4_8422_2325
    ensures Text.Utf8(s) == Text.Utf8(t) ==> HashKeyOf(Str(s)) == HashKeyOf(Str(t))
  {
    assert Text.Utf8("") == [];
  }

  /** Every kind reports its own type tag, except that a macro reports FUNCTION. */
  lemma TypeTags()
    ensures |{INTEGER_OBJ, STRING_OBJ, HASH_OBJ, BOOLEAN_OBJ, ARRAY_OBJ, NULL_OBJ,
              RETURN_VALUE_OBJ, FUNCTION_OBJ, BUILTIN_OBJ, QUOTE_OBJ}| == 10
    ensures forall ps, b, e :: Type(Macro(ps, b, e)) == Type(Function(ps, b, e))
  {
  }

  /** The rendering of scalars; an integer's rendering reads back as the integer. */
  lemma InspectScalars(i: Int, b: bool, id: BoolIdent, s: string)
    ensures Text.IsDecimal(Inspect(Integer(i))) && Text.DecimalValue(Inspect(Integer(i))) == i
    ensures Inspect(Boolean(b, id)) == if b then "true" else "false"
    ensures Inspect(Null) == "null"
    ensures Inspect(Str(s)) == s
    ensures Inspect(ReturnValue(Str(s))) == s
  {
    Text.DecimalRoundTrip(i);
  }

  /** A return-value wrapper renders as what it wraps. */
  lemma InspectReturnValue(v: Value)
    requires !ContainsNil(v)
    ensures !ContainsNil(ReturnValue(v)) && Inspect(ReturnValue(v)) == Inspect(v)
  {
  }

  /**
   * The outline of each kind's rendering: arrays in brackets, hashes in
   * braces, a quote as QUOTE(...), and a function, a macro and a builtin
   * ending in a newline.
   */
  lemma InspectShapes(v: Value)
    requires !ContainsNil(v)
    ensures v.Array? ==> var s := Inspect(v); |s| >= 2 && s[0] == '[' && s[|s| - 1] == ']'
    ensures v.Hash? ==> var s := Inspect(v); |s| >= 2 && s[0] == '{' && s[|s| - 1] == '}'
    ensures v.Quote? ==> var s := Inspect(v); "QUOTE(" <= s && s[|s| - 1] == ')'
    ensures v.Function? || v.Macro? || v.Builtin? ==> var s := Inspect(v); |s| > 0 && s[|s| - 1] == '\n'
  {
  }

  /** Examples: array elements are rendered in order between brackets, separated by commas. */
  lemma InspectArrays()
    ensures Inspect(Array([])) == "[]"
    ensures Inspect(Array([Integer(1), Str("a"), Null])) == "[1,a,null]"
  {
    var es := [Integer(1), Str("a"), Null];
    ElementRenderings();
    var xs := seq(3, i requires 0 <= i < 3 => Inspect(es[i]));
    assert xs == ["1", "a", "null"];
    assert Text.Join(["a", "null"], ",") == "a,null";
  }

  lemma ElementRenderings()
    ensures Inspect(Integer(1)) == "1" && Inspect(Str("a")) == "a" && Inspect(Null) == "null"
  {
    assert Text.Decimal(1) == "1";
  }

  /** The rendering of a function value: `fn(x,y){return (x+y);}` and a newline. */
  lemma InspectFunction(env: ScopeRef)
    ensures Inspect(Function(["x", "y"], Block("{", [Return("return", Infix("+", Ident("x"), "+", Ident("y")))]), env))
      == "fn(x,y){return (x+y);}\n"
  {
    SumBodyRendering();
    assert Text.Join(["x", "y"], ",") == "x,y";
  }

  /** The body `{ return x + y; }` prints as `return (x+y);`. */
  lemma SumBodyRendering()
    ensures BlockString(Block("{", [Return("return", Infix("+", Ident("x"), "+", Ident("y")))])) == "return (x+y);"
  {
    var ret := Return("return", Infix("+", Ident("x"), "+", Ident("y")));
    assert StmtString(ret) == "return (x+y);";
    assert StmtsString([ret]) == StmtString(ret) + StmtsString([]);
  }

  /** Example: a quote renders as QUOTE( + the printed node + ). */
  lemma InspectQuote()
    ensures Inspect(Quote(Infix("+", Ident("a"), "+", Ident("b")))) == "QUOTE((a+b))"
  {
  }
}
