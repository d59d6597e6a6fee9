/** The builtin functions of eval/builtin.go and their registry. */
module Builtins {
  import opened Wrappers
  import opened GoInt
  import Text
  import opened Object

  /** The `builtins` registry: name to builtin. */
  const Registry: map<string, BuiltinName> :=
    map["len" := Len, "first" := First, "last" := Last, "rest" := Rest, "push" := Push]

  /** The registry holds exactly the five builtins, each under its own name. */
  lemma RegistryIsExact()
    ensures Registry.Keys == {"len", "first", "last", "rest", "push"}
    ensures forall n <- Registry :: Registry[n].Name() == n
    ensures forall b: BuiltinName :: b.Name() in Registry && Registry[b.Name()] == b
  {
  }

  /** How many arguments a builtin takes. */
  function Arity(b: BuiltinName): nat
  {
    if b == Push then 2 else 1
  }

  function ArityMessage(expected: nat, got: nat): string
  {
    "wrong number of arguments, expected " + Text.Decimal(expected) + ", but got " + Text.Decimal(got) + "\n"
  }

  /** The default case of the type switch: `a.Type()`, which dereferences a nil object. */
  function NotSupported(a: Value): (r: Outcome<Value>)
    ensures a.Nil? <==> r.Panic?
    ensures !a.Nil? ==> r == Err("not supported on " + Type(a) + "\n")
  {
    if a.Nil? then Panic(NilDereference) else Err("not supported on " + Type(a) + "\n")
  }

  /** `len`: a string's length in UTF-8 bytes, an array's element count (as a Go `int`). */
  function LenOf(args: seq<Value>): (r: Outcome<Value>)
    ensures |args| != 1 ==> r == Err(ArityMessage(1, |args|))
    ensures |args| == 1 && args[0].Str? ==> r == Ok(Integer(Wrap(|Text.Utf8(args[0].strValue)|)))
    ensures |args| == 1 && args[0].Array? ==> r == Ok(Integer(Wrap(|args[0].elements|)))
    ensures |args| == 1 && !args[0].Str? && !args[0].Array? ==> r == NotSupported(args[0])
  {
    if |args| != 1 then Err(ArityMessage(1, |args|))
    else match args[0]
      case Str(s) => Ok(Integer(Wrap(|Text.Utf8(s)|)))
      case Array(es) => Ok(Integer(Wrap(|es|)))
      case _ => NotSupported(args[0])
  }

  /** `first`: element 0 of a non-empty array, NULL for an empty one. */
  function FirstOf(args: seq<Value>): (r: Outcome<Value>)
    ensures |args| != 1 ==> r == Err(ArityMessage(1, |args|))
    ensures |args| == 1 && args[0].Array? ==>
      r == Ok(if args[0].elements == [] then Null else args[0].elements[0])
    ensures |args| == 1 && !args[0].Array? ==> r == NotSupported(args[0])
  {
    if |args| != 1 then Err(ArityMessage(1, |args|))
    else match args[0]
      case Array(es) => if |es| == 0 then Ok(Null) else Ok(es[0])
      case _ => NotSupported(args[0])
  }

  /** `last`: the final element of a non-empty array, NULL for an empty one. */
  function LastOf(args: seq<Value>): (r: Outcome<Value>)
    ensures |args| != 1 ==> r == Err(ArityMessage(1, |args|))
    ensures |args| == 1 && args[0].Array? ==>
      r == Ok(if args[0].elements == [] then Null else args[0].elements[|args[0].elements| - 1])
    ensures |args| == 1 && !args[0].Array? ==> r == NotSupported(args[0])
  {
    if |args| != 1 then Err(ArityMessage(1, |args|))
    else match args[0]
      case Array(es) => if |es| == 0 then Ok(Null) else Ok(es[|es| - 1])
      case _ => NotSupported(args[0])
  }

  /** `rest`: a new array of all elements but the first, NULL for an empty array. */
  function RestOf(args: seq<Value>): (r: Outcome<Value>)
    ensures |args| != 1 ==> r == Err(ArityMessage(1, |args|))
    ensures |args| == 1 && args[0].Array? && args[0].elements == [] ==> r == Ok(Null)
    ensures |args| == 1 && args[0].Array? && args[0].elements != [] ==>
      r.Ok? && r.value.Array? && |r.value.elements| == |args[0].elements| - 1
      && forall i | 0 <= i < |r.value.elements| :: r.value.elements[i] == args[0].elements[i + 1]
    ensures |args| == 1 && !args[0].Array? ==> r == NotSupported(args[0])
  {
    if |args| != 1 then Err(ArityMessage(1, |args|))
    else match args[0]
      case Array(es) => if |es| == 0 then Ok(Null) else Ok(Array(es[1..]))
      case _ => NotSupported(args[0])
  }

  /** `push`: a new array holding the array's elements and then the pushed object. */
  function PushOf(args: seq<Value>): (r: Outcome<Value>)
    ensures |args| != 2 ==> r == Err(ArityMessage(2, |args|))
    ensures |args| == 2 && args[0].Array? ==>
      r.Ok? && r.value.Array? && |r.value.elements| == |args[0].elements| + 1
      && r.value.elements[..|args[0].elements|] == args[0].elements
      && r.value.elements[|args[0].elements|] == args[1]
    ensures |args| == 2 && !args[0].Array? ==> r == NotSupported(args[0])
  {
    if |args| != 2 then Err(ArityMessage(2, |args|))
    else match args[0]
      case Array(es) => Ok(Array(Pushed(es, args[1])))
      case _ => NotSupported(args[0])
  }

  /** The elements of the array `push` builds. */
  function Pushed(es: seq<Value>, o: Value): (r: seq<Value>)
    ensures |r| == |es| + 1 && r[..|es|] == es && r[|es|] == o
  {
    es + [o]
  }

  /**
   * `push`'s construction: a fresh array one longer than the original, the
   * original elements copied into its front, the pushed object in its last
   * slot. The original is left as it was.
   */
  method PushCopy(es: seq<Value>, o: Value) returns (r: array<Value>)
    ensures fresh(r) && r[..] == Pushed(es, o)
  {
    var l := |es|;
    r := new Value[l + 1](_ => Nil);
    var i := 0;
    while i < l
      invariant 0 <= i <= l
      invariant r[..i] == es[..i]
    {
      r[i] := es[i];
      i := i + 1;
    }
    r[l] := o;
    assert r[..l] == es;
  }

  /** Calling a builtin: `Fn(args...)`. */
  function Apply(b: BuiltinName, args: seq<Value>): (r: Outcome<Value>)
    ensures |args| != Arity(b) ==> r == Err(ArityMessage(Arity(b), |args|))
  {
    match b
    case Len => LenOf(args)
    case First => FirstOf(args)
    case Last => LastOf(args)
    case Rest => RestOf(args)
    case Push => PushOf(args)
  }

  // ---------------------------------------------------------------------------
  // Properties

  /** What `len` counts: bytes, so ASCII text counts its characters and other text more. */
  lemma LenExamples()
    ensures LenOf([Str("")]) == Ok(Integer(0))
    ensures LenOf([Str("hello")]) == Ok(Integer(5))
    ensures LenOf([Str("é")]) == Ok(Integer(2))
  {
    Text.Utf8Ascii("hello");
    assert Text.Utf8("é") == Text.Utf8Char('é') + Text.Utf8("");
  }

  /** `len` of a non-string, non-array object, and `len` with two arguments. */
  lemma LenErrorExamples()
    ensures LenOf([Integer(1)]) == Err("not supported on INTEGER\n")
    ensures LenOf([Str("one"), Str("two")]) == Err("wrong number of arguments, expected 1, but got 2\n")
  {
    assert Text.Decimal(1) == "1" && Text.Decimal(2) == "2";
  }

  /** Pushing then taking the last element gives the pushed object; the first element is unchanged. */
  lemma PushThenLastAndFirst(es: seq<Value>, o: Value)
    ensures PushOf([Array(es), o]).Ok?
    ensures LastOf([PushOf([Array(es), o]).value]) == Ok(o)
    ensures es != [] ==> FirstOf([PushOf([Array(es), o]).value]) == Ok(es[0])
    ensures es == [] ==> FirstOf([PushOf([Array(es), o]).value]) == Ok(o)
  {
  }

  /** `rest` after `push` is `push` after `rest`, for a non-empty array. */
  lemma RestPushCommute(es: seq<Value>, o: Value)
    requires es != []
    ensures var pushed := PushOf([Array(es), o]).value;
      RestOf([pushed]) == PushOf([RestOf([Array(es)]).value, o])
  {
    assert (es + [o])[1..] == es[1..] + [o];
  }

  /** `first` and `rest` take an array apart: the array is its first element followed by its rest. */
  lemma FirstRestSplit(es: seq<Value>)
    requires es != []
    ensures var f := FirstOf([Array(es)]).value; var r := RestOf([Array(es)]).value;
      r.Array? && [f] + r.elements == es
  {
  }

  /** A nil first argument makes every builtin panic once the arity is right. */
  lemma NilArgumentPanics(b: BuiltinName, args: seq<Value>)
    requires |args| == Arity(b) && args[0] == Nil
    ensures Apply(b, args).Panic?
  {
  }
}
