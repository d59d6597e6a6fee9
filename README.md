# Monkey interpreter core in Dafny

This project models the core of the Monkey interpreter, a tree-walking interpreter
written in Go. It covers the following pieces:

- token kinds and keyword lookup;
- the AST and its canonical printing;
- the generic AST rewriter (`ast.Modify`);
- the object system, with values, type tags, `Inspect`, hash keys and hash tables;
- environments;
- the `let`-statement parser;
- the five builtins;
- the evaluator, including `quote`/`unquote`;
- the macro system (`DefineMacros` and `ExpandMacros`).

The modules follow the packages of the Go program:

| module | file | models |
|---|---|---|
| `Wrappers` | wrappers.dfy | `Option` and `Outcome` (`Ok`, `Err(msg)`, `Panic(reason)`, `Exhausted`) |
| `GoInt` | goint.dfy | Go `int` as a 64-bit two's complement integer, wrap-around, truncating division, `uint64(i)` |
| `Text` | text.dfy | decimal formatting of integers, `strings.Join`, UTF-8 byte length |
| `Token` | token.dfy | token kinds, the keyword table and `LookupIdent` |
| `Ast` | ast.dfy | AST nodes as datatypes; `Program` as a class; the `String()`/`TokenLiteral()` rendering |
| `Modify` | modify.dfy | `ast.Modify`: the rewrite, which nodes it visits and what it keeps |
| `Object` | object.dfy | object values, `Type()`, `Inspect()`, `HashKey()` (FNV-1a for strings), hash tables |
| `Env` | environment.dfy | `object.Environment` (a class over a map) and the scope store the evaluator uses |
| `Builtins` | builtins.dfy | `len`, `first`, `last`, `rest`, `push` |
| `Operators` | operators.dfy | truthiness, prefix/infix/index operators, the value-to-AST conversion of `unquote` |
| `Evaluator` | eval.dfy | `Eval` with calls, closures, `return`, `quote` and `unquote` |
| `Macros` | macro.dfy | `DefineMacros`, `addMacro`, `isMacroDef`, `isMacroCall` and `ExpandMacros` |
| `Parser` | parser.dfy | `parser.Parser`: lookahead, `expectPeek`, `parseLetStatement`, `ParseProgram` |

## Modelling choices

- **Go panics are outcomes, not preconditions.** A Go runtime panic that dynamic data can
  trigger becomes a `Panic(reason)` outcome. Examples:
  - a nil object is dereferenced;
  - division by zero;
  - a call supplies fewer arguments than the function has parameters;
  - `Modify` meets an `if` without `else`;
  - a macro returns something other than a quote.

  Every operation is total over its inputs. The panics listed above, the nil-key panic of a
  hash literal and the panic of `eval` on a value that is not a quote are each stated by a
  contract or a lemma in the table below.
- **Environments form a store.** `object/environment.go` defines a flat environment:
  `NewEnvironment()` takes no parent, and `Get`/`Set` act on one map. It is modelled as
  the class `Env.Environment`. But `eval/eval.go:163` and `eval/macro.go:93` call
  `NewEnvironment(env)` and expect chained scopes. The evaluator therefore threads a
  `Store` through every call:
  - a `Store` is a sequence of scopes, each with a map and an optional outer scope;
  - a closure holds the index of its scope, so sharing works as it does with Go pointers;
  - `Env.Preserves` states what any evaluation may do to a store: change the bindings of
    the current scope, append new scopes, and nothing else.
- **Boolean identity.** Go compares objects by pointer. `true`/`false` from literals and
  comparisons are the two shared singletons. String comparisons, however, allocate fresh
  `Boolean`s (`eval/eval.go:213-220`). A `Boolean` therefore carries either `Canonical` or
  `Fresh(id)`, and `==` on booleans compares the identity too. One consequence is that
  `("a" == "b") == false` is false.
- **Fuel.** Monkey programs need not terminate. The evaluator carries a `fuel` count that
  decreases on each function call, each unquoted expression and each
  evaluation of a quoted node. When it runs out, the
  result is `Exhausted`.
- **A failed `let` is kept as a nil statement.** `parseLetStatement` returns a nil
  `*ast.LetStatement` when an expectation fails, and `ParseProgram` compares the
  `ast.Statement` interface holding it with nil. An interface holding a typed nil pointer
  is not nil, so the nil statement is appended to the program. The model has a statement
  `NilLet` for it. Printing a program that holds one, taking its token literal when it
  comes first, `DefineMacros`, `Modify` and evaluation all dereference it and panic.
- **The AST is a value.** `Modify` mutates nodes in place and returns them. The model
  rebuilds the nodes instead. The top-level `Program` is a class whose `statements` the
  macro passes reassign, as the Go code does.
- **Where the Go code behaves unexpectedly, the model follows the code:**
  - Calling a function with too few arguments panics with an index out of range; it is
    not an error value.
  - Comparing two strings yields a fresh boolean, so `if ("a" == "b")` takes the
    consequence.
  - The rewrite behind macro expansion does not descend into a call's callee or
    arguments, so it does not visit every child slot. A macro call nested in another
    call's arguments stays unexpanded.

## Model

| member | source | states |
|---|---|---|
| GoInt.Wrap | eval/eval.go:225-253 | the result is the 64-bit value congruent to the mathematical result; in-range values are unchanged |
| GoInt.AsUint64 | object/object.go:55-60 | `uint64(i)`: below 2^64 and congruent to `i`; negatives map to `i + 2^64` |
| GoInt.TruncDivIsGoDivision | eval/eval.go:239-242 | the quotient is Go's truncated one: the remainder is smaller than the divisor and is zero or has the dividend's sign |
| GoInt.TruncDivExample | eval/eval.go:239-242 | `-7/2` is -3 in Go (not Dafny's -4); signs of divisor and dividend combine as in Go |
| Text.Digits | object/object.go:62-64 | decimal digits are non-empty, all in '0'..'9', no leading zero except for 0 |
| Text.DigitsRoundTrip | object/object.go:62-64 | reading back the printed digits gives the number |
| Text.DecimalRoundTrip | ast/ast.go:80-82 | the decimal rendering of any integer reads back to that integer |
| Text.DecimalInjective | ast/ast.go:80-82 | different integers render differently |
| Text.Join | ast/ast.go:340-353 | joining nothing gives "", joining one string gives it unchanged |
| Text.JoinLength | ast/ast.go:340-353 | the joined length is the sum of the parts plus one separator between each pair |
| Text.Utf8Char | eval/builtin.go:17-34 | a rune takes 1 to 4 bytes, exactly 1 iff it is ASCII |
| Text.Utf8 | eval/builtin.go:17-34 | the byte length of a string is between its rune count and four times it |
| Text.Utf8Ascii | eval/builtin.go:17-34 | an ASCII string has as many bytes as characters |
| Token.LookupIdent | token/token.go:66-71 | a keyword maps to its own kind, anything else to IDENT, never to a punctuation kind |
| Token.KeywordKinds | token/token.go:54-64 | the table holds exactly the nine keywords with their kinds |
| Token.KeywordKindsDistinct | token/token.go:37-64 | distinct keywords have distinct kinds |
| Ast.Program.constructor | ast/ast.go:39-41 | a program holds the given statements |
| Ast.Program.String | ast/ast.go:43-51 | panics exactly when a nil let is among the statements; otherwise the rendering splits at every statement boundary into the renderings of the two parts; an empty program prints as "" |
| Ast.Program.TokenLiteral | ast/ast.go:53-59 | "" for an empty program, a panic when the first statement is a nil let, otherwise that statement's token |
| Ast.ExprTokenLiteral | ast/ast.go:66-432 | identifiers, Booleans, null and strings print exactly as their token literal |
| Ast.ExprString | ast/ast.go:66-428 | prefix, infix and index nodes print in parentheses, arrays in brackets, hashes in braces; a call ends with `)`; an `if` starts with `if` |
| Ast.ExprStrings | ast/ast.go:303-314 | one rendering per element, element k rendered as element k |
| Ast.PairStrings | ast/ast.go:388-403 | one rendering per hash entry, entry k rendered as `key:value` of entry k |
| Ast.StmtString | ast/ast.go:169-225 | a let starts with its token, name and ` = ` and ends with `;`; a return starts with its token and ends with `;`; an expression statement prints as its expression |
| Ast.StmtsString | ast/ast.go:43-51 | no statements print as ""; otherwise the rendering starts with the first statement's |
| Ast.BlockString | ast/ast.go:257-265 | an empty block prints as ""; otherwise the rendering starts with its first statement's, with no braces |
| Ast.StmtsStringAppend | ast/ast.go:43-51 | rendering distributes over concatenation of statement lists |
| Ast.StmtsStringSplits | ast/ast.go:43-51 | the rendering of a statement list splits at every position into the renderings of the two parts |
| Ast.IntLitReadsBack | ast/ast.go:80-82 | an integer literal prints as a decimal that reads back to its value |
| Ast.OperatorsRenderWithoutBlanks | ast/ast.go:124-154 | trees of operators, indexes, calls and arrays over identifiers and integers print with no blank |
| Ast.ListRendersWithoutBlanks | ast/ast.go:303-314 | each element of such a list prints with no blank |
| Ast.JoinWithoutBlanks | ast/ast.go:340-353 | joining blank-free parts with a blank-free separator gives a blank-free string |
| Ast.DecimalHasNoBlank | ast/ast.go:80-82 | integers print without blanks |
| Ast.GoldenLetRendering | ast/ast.go:169-181 | `let foo = bar;` prints as in the package's String test |
| Ast.GoldenInfixRenderings | ast/ast.go:124-154 | examples: `a+b*c`, `a+b+c` and `!-a` print as `(a+(b*c))`, `((a+b)+c)` and `(!(-a))` |
| Ast.InfixRendering | ast/ast.go:124-133 | an infix node prints as its operands around its operator, in parentheses, with no blanks |
| Ast.GoldenArrayRendering | ast/ast.go:340-353 | arrays print as `[1,2]` |
| Ast.GoldenCallRendering | ast/ast.go:303-314 | calls print as `add(a,(b[1]))` |
| Ast.CallArgumentsRendering | ast/ast.go:303-314 | example: the arguments `a, b[1]` print as `a` and `(b[1])` |
| Ast.CallRendering | ast/ast.go:303-314 | a call prints as its callee, then its arguments comma-separated in parentheses |
| Ast.GoldenProgramRendering | ast/ast.go:43-51 | statements are concatenated without separators |
| Modify.ModifyExpr | ast/modify.go:5-67 | a leaf-kind node (identifier, literal, call, macro literal) is decided by the modifier alone, with its state |
| Modify.ModifyKeepsKind | ast/modify.go:13-63 | a node the rewrite descends into comes back non-nil with the same Go type and token |
| Modify.ModifySlot | ast/modify.go:14-26 | a modifier returning nil for a slot panics on the `.(Expression)` assertion; a rewritten slot keeps its Go type |
| Modify.ModifySlots | ast/modify.go:49-53 | the rewritten elements are as many as before |
| Modify.ModifyPairs | ast/modify.go:55-63 | the rewritten hash has as many pairs as before |
| Modify.ModifyParams | ast/modify.go:43-48 | as many parameters as before; a modifier returning nil for the first parameter panics |
| Modify.ModifyStmt | ast/modify.go:12-41 | a nil let panics; a rewritten statement is of the same kind with the same token, and a let keeps its name and has a value |
| Modify.ModifyStmts | ast/modify.go:7-11 | as many statements as before |
| Modify.ModifyBlock | ast/modify.go:27-31 | the block keeps its token and its number of statements |
| Modify.ModifyProgram | ast/modify.go:7-11 | the program's statements are replaced in place by the rewrite of each, and the state and errors are those of the rewrite |
| Modify.Leaves | ast/modify.go:5-67 | the nodes handed to the modifier are exactly leaf-kind nodes |
| Modify.RecordSeesLeaves | ast/modify.go:5-67 | with a recording modifier the rewrite visits exactly the leaf nodes in source order and rebuilds the node, or panics exactly when a nil slot is met |
| Modify.LiftMapsLeaves | ast/modify.go:5-67 | a stateless modifier that never fails maps over the leaves and keeps every other part of the tree |
| Modify.MapAll | ast/modify.go:49-53 | mapping keeps the length of a list |
| Modify.KeepsExpr | ast/modify.go:5-67 | a reflexive, transitive relation that each modifier step keeps holds between the states before and after a whole rewrite |
| Modify.KeepsStmts | ast/modify.go:7-11 | the same for a list of statements |
| Modify.FixedExpr | ast/modify.go:5-67 | a modifier that returns each leaf unchanged leaves the node and the state unchanged |
| Modify.FixedStmts | ast/modify.go:7-11 | the same for a list of statements |
| Modify.TurnOneIntoTwo | ast/modify_test.go:10-19 | the test's modifier: integer 1 becomes 2, other integers stay, other node kinds fail the type assertion |
| Modify.TurnOneIntoTwoRewritesSlots | ast/modify.go:16-42 | infix, index and let slots are rewritten |
| Modify.TurnOneIntoTwoRewritesBlocks | ast/modify.go:27-36 | the condition and both branches of an if are rewritten |
| Modify.TurnOneIntoTwoRewritesLiterals | ast/modify.go:49-63 | array elements and both sides of every hash entry are rewritten |
| Modify.MissingElsePanics | ast/modify.go:32-36 | an if without else makes the rewrite panic |
| Object.BoolToBoolean | eval/eval.go:17-22 | Go booleans map to the two shared singletons |
| Object.Type | object/object.go:46-275 | functions and macros, and only they, report FUNCTION |
| Object.HashKeyOf | object/object.go:55-159 | a hash key carries the value's type tag and a 64-bit digest |
| Object.Find | object/object.go:204-214 | absent iff no entry has the key; otherwise an entry with that key |
| Object.Put | eval/eval.go:347-371 | inserting keeps every entry with another key at its place and adds at most one entry |
| Object.FindAfterPut | eval/eval.go:347-371 | lookup after insertion gives the new entry for its key and the old result for every other key |
| Object.PutKeepsKeysDistinct | eval/eval.go:347-371 | insertion keeps keys distinct |
| Object.KeyOfMember | object/object.go:204-214 | every stored entry can be found by its key |
| Object.KeysOfDifferentKindsDiffer | object/object.go:204-207 | values of different types never share a key |
| Object.IntegerKeys | object/object.go:55-60 | integers have equal keys iff they are equal; a negative key digest wraps to unsigned |
| Object.BooleanKeys | object/object.go:86-95 | boolean keys ignore identity, and true and false differ (digests 1 and 0) |
| Object.StringKeyDigests | object/object.go:149-159 | the empty string hashes to the FNV-1a offset basis; strings with equal bytes share a key |
| Object.TypeTags | object/object.go:20-30 | ten distinct type tags; macros report the function tag |
| Object.InspectScalars | object/object.go:62-163 | integers print as decimals that read back; booleans, null and strings print as themselves; a return value prints its inner value |
| Object.InspectReturnValue | object/object.go:74-76 | a return value prints exactly as its inner value |
| Object.Inspect | object/object.go:62-270 | each kind's `Inspect()`; no contract of its own: the rows below state its rules and examples |
| Object.Fnv1a64 | object/object.go:149-159 | `fnv.New64a` over a string's bytes; no contract of its own: `FnvByteStep`, `FnvAppend` and `FnvExample` state it |
| Object.InspectShapes | object/object.go:122-270 | arrays print in brackets, hashes in braces, a quote as `QUOTE(...)`, and functions, macros and builtins end in a newline |
| Object.InspectArrays | object/object.go:188-198 | examples: `[]`, and `[1,a,null]` for 1, "a" and null |
| Object.InspectFunction | object/object.go:122-139 | the function rendering `fn(x,y){...}` with trailing newline |
| Object.InspectQuote | object/object.go:240-242 | example: the quote of `a + b` prints as `QUOTE((a+b))` |
| Object.SumBodyRendering | ast/ast.go:194-265 | example: the block `{ return x + y; }` prints as `return (x+y);` |
| Object.FnvByteStep | object/object.go:149-159 | the digest is built a byte at a time: xor the byte in, then multiply by the FNV prime modulo 2^64 |
| Object.FnvAppend | object/object.go:149-159 | hashing a concatenation continues from the digest of the first part |
| Object.FnvExample | object/object.go:149-159 | the published FNV-1a test vector: "a" hashes to 0xaf63dc4c8601ec8c |
| Env.UndefinedMessage | object/environment.go:15-21 | the message starts with the fixed prefix and ends with the name |
| Env.Environment.constructor | object/environment.go:9-13 | a new environment is empty |
| Env.Environment.Get | object/environment.go:15-21 | found iff bound, with the bound value; otherwise the undefined-identifier error |
| Env.Environment.Set | object/environment.go:23-27 | the map gains or replaces exactly that binding; the value is returned |
| Env.SetThenGet | object/environment.go:15-27 | after Set, other names read as before |
| Env.RootStore | eval/eval.go:55-158 | a fresh store is well formed with one scope |
| Env.NewScope | eval/eval.go:160-180 | a new empty scope is appended whose outer is the given one |
| Env.Lookup | eval/eval.go:194-205 | a binding in the scope itself wins; found only for existing scopes |
| Env.Define | eval/eval.go:109-115 | only the given scope's map changes, by that one binding |
| Env.PreservesRefl | eval/eval.go:55-158 | doing nothing preserves a store |
| Env.PreservesTrans | eval/eval.go:55-158 | preservation composes |
| Env.PreservesValid | eval/eval.go:55-158 | preservation keeps a store well formed when new scopes point backwards |
| Env.NewScopeFallsThrough | eval/eval.go:160-180 | names not yet bound in a new scope resolve as in its outer scope |
| Env.LookupIgnoresLaterScopes | eval/eval.go:160-180 | appending scopes never changes what an older scope resolves |
| Env.DefineThenLookup | eval/eval.go:109-115 | a defined name reads back its value |
| Env.DefineKeepsOtherNames | eval/eval.go:109-115 | defining a name changes no lookup of any other name from any scope |
| Env.ChildDefineLeavesParent | eval/eval.go:160-180 | defining in an inner scope never affects an outer one |
| Env.ChildShadowsParent | eval/eval.go:160-180 | an inner binding shadows the outer one without changing it |
| Builtins.RegistryIsExact | eval/builtin.go:9-15 | the registry has exactly the five names, each mapped to the builtin of that name |
| Builtins.NotSupported | eval/builtin.go:17-34 | the unsupported-type error names the argument's type; a nil argument panics |
| Builtins.LenOf | eval/builtin.go:17-34 | arity error unless one argument; strings give their UTF-8 byte count, arrays their length; others are unsupported |
| Builtins.FirstOf | eval/builtin.go:36-50 | the first element, null for an empty array, the arity and type errors otherwise |
| Builtins.LastOf | eval/builtin.go:52-66 | the last element, null for an empty array, the arity and type errors otherwise |
| Builtins.RestOf | eval/builtin.go:68-84 | a new array of all elements but the first, null for an empty array |
| Builtins.PushOf | eval/builtin.go:86-103 | a new array of the old elements followed by the pushed one |
| Builtins.Pushed | eval/builtin.go:94-98 | the copied array is one longer, with the old elements in order and the new one last |
| Builtins.PushCopy | eval/builtin.go:94-98 | the copy loop fills a fresh array with exactly `Pushed` |
| Builtins.Apply | eval/builtin.go:9-103 | each builtin reports the arity error for a wrong argument count |
| Builtins.LenExamples | eval/builtin.go:17-34 | `len` counts bytes: "é" has length 2 |
| Builtins.LenErrorExamples | eval/builtin.go:17-34 | the exact messages for an integer argument and for two arguments |
| Builtins.PushThenLastAndFirst | eval/builtin.go:36-103 | after a push, `last` gives the pushed value and `first` is unchanged (or the value, for an empty array) |
| Builtins.RestPushCommute | eval/builtin.go:68-103 | `rest` of a push equals push onto `rest` |
| Builtins.FirstRestSplit | eval/builtin.go:36-84 | `first` followed by `rest` rebuilds a non-empty array |
| Builtins.NilArgumentPanics | eval/builtin.go:17-103 | every builtin panics on a nil first argument |
| Operators.Quoted | eval/eval.go:207-300 | `%q` of a plain string wraps it in double quotes |
| Operators.Shown | object/object.go:46-275 | `Inspect` succeeds iff the value holds no nil, and panics otherwise |
| Operators.IsTrue | eval/eval.go:29-39 | everything is true except the shared `false` and `null` |
| Operators.EvalPrefix | eval/eval.go:278-300 | `!` negates truthiness; `-` negates integers with wrap-around; the exact errors otherwise |
| Operators.EvalInfixInteger | eval/eval.go:225-253 | the eight integer operators with wrap-around and truncated division; division by zero panics; other operators give the error |
| Operators.EvalInfixString | eval/eval.go:207-223 | `+` concatenates; `==`/`!=` yield freshly allocated booleans; others give the error |
| Operators.IllegalOperands | eval/eval.go:255-276 | the illegal-operands message, or a panic when an operand holds a nil |
| Operators.EvalInfix | eval/eval.go:255-276 | dispatch: integers, strings, booleans by identity, then the illegal-operands error |
| Operators.EvalIndex | eval/eval.go:373-411 | array indexing in range or the bounds error, hash lookup or null, unhashable and unsupported errors |
| Operators.IsUnquote | eval/eval.go:443-449 | an unquote site is a call whose callee's token literal is `unquote`, with exactly one argument |
| Operators.NewAstNode | eval/eval.go:451-483 | integers, booleans and quotes convert back to AST nodes; other values give the conversion error |
| Operators.TruthIsIdentity | eval/eval.go:29-39 | a freshly allocated `false`, 0 and "" are all true |
| Operators.BangBang | eval/eval.go:278-300 | `!` always gives a shared boolean, and `!!v` is v's truthiness |
| Operators.StringComparisonsAreAlwaysTrue | eval/eval.go:207-223 | a string comparison is truthy whatever its value and equals neither shared boolean |
| Operators.IntegerOverflowWraps | eval/eval.go:225-253 | MaxInt+1 wraps to MinInt, MinInt/-1 and -MinInt are MinInt, -7/2 is -3 |
| Operators.IndexFindsStored | eval/eval.go:391-411 | an array index succeeds iff in range; a stored hash key reads back its value |
| Operators.IndexStoredKey | eval/eval.go:400-411 | in a table with distinct keys, every entry is found by its key |
| Evaluator.EvalIdent | eval/eval.go:194-205 | a binding wins, then a builtin, else the undefined-identifier error |
| Evaluator.Bind | eval/eval.go:160-180 | binding parameters touches only the call's scope |
| Evaluator.Unwrap | eval/eval.go:302-315 | a return value is unwrapped, everything else passes through |
| Evaluator.EvalExpr | eval/eval.go:55-158 | evaluating an expression preserves the store: only the current scope's bindings change and scopes are only appended |
| Evaluator.EvalStmt | eval/eval.go:55-158 | the same for statements |
| Evaluator.BlockFrom | eval/eval.go:317-345 | the same for the statements of a block |
| Evaluator.EvalIf | eval/eval.go:41-53 | evaluating an `if` node preserves the store |
| Evaluator.EvalCall | eval/eval.go:55-158 | evaluating a call node, including `eval(x)` and `quote(x)`, preserves the store |
| Evaluator.IfTakesBranch | eval/eval.go:41-53 | once the condition is a value, a truthy one runs the consequence, otherwise the alternative runs, or the result is null when there is none |
| Evaluator.EvalExprs | eval/eval.go:182-192 | one value per argument; errors carry the passing-expression prefix |
| Evaluator.EvalPairs | eval/eval.go:347-371 | hash literal evaluation preserves the store |
| Evaluator.CallFunction | eval/eval.go:160-180 | a call only adds scopes; no existing binding changes |
| Evaluator.CallOutcomes | eval/eval.go:160-180 | a builtin is applied to the arguments; a function given too few arguments panics with index out of range; any other object gives the error `<Inspect()> is not callable` |
| Evaluator.CallRunsBody | eval/eval.go:160-172 | with enough arguments a function runs its body in a new scope under the captured one with the parameters bound, and the return value is unwrapped |
| Evaluator.EvalLiteral | eval/eval.go:485-495 | evaluating `eval`'s argument and then its quoted node preserves the store |
| Evaluator.EvalCallRule | eval/eval.go:134-139 | `eval(x)`: x is evaluated and the node of its quote is evaluated in the same scope; a value that is not a quote panics; a failure is passed on |
| Evaluator.QuoteCall | eval/eval.go:140-145 | `quote(x)` with one argument evaluates to the quote of x with its unquote sites replaced |
| Evaluator.HashKeyChecked | eval/eval.go:351-359 | a nil key object panics and an unhashable key stops the literal with `<type> is not hashable` |
| Evaluator.QuoteNode | eval/eval.go:413-418 | quoting preserves the store |
| Evaluator.Unquoter | eval/eval.go:420-441 | every step of the unquote rewrite preserves the store |
| Evaluator.UnquoteAt | eval/eval.go:420-449 | the same for a single node |
| Evaluator.PreservesKept | eval/eval.go:420-441 | store preservation is reflexive and transitive |
| Evaluator.ProgramFrom | eval/eval.go:302-315 | evaluating a program preserves the store |
| Evaluator.EvalProgram | eval/eval.go:302-315 | the loop computes exactly `ProgramFrom` |
| Evaluator.EvalBlockStatements | eval/eval.go:317-345 | the loop computes exactly `BlockFrom` |
| Evaluator.EvalExpressions | eval/eval.go:182-192 | the loop computes exactly `EvalExprs` |
| Evaluator.EvalHashLiteral | eval/eval.go:347-371 | the loop computes exactly `EvalPairs` |
| Evaluator.BindParameters | eval/eval.go:164-166 | fewer arguments than parameters panic with index out of range; otherwise each parameter is bound |
| Evaluator.ProgramIsUnwrappedBlock | eval/eval.go:302-345 | a program evaluates like a block whose return value is unwrapped at the end |
| Evaluator.BlockSequence | eval/eval.go:317-345 | a block of two parts runs the second only when the first neither fails nor returns |
| Evaluator.LetBindsInCurrentScope | eval/eval.go:109-115 | `let` yields null, binds the value in the current scope and changes no other name |
| Evaluator.BindKeepsOthers | eval/eval.go:164-166 | names that are not parameters resolve as before |
| Evaluator.BindLastWins | eval/eval.go:164-166 | a parameter not repeated later is bound to its argument |
| Evaluator.CallScope | eval/eval.go:160-180 | in the call scope, parameters see their arguments and other names see the closure's scope |
| Evaluator.ConvertedValuesEvaluateBack | eval/eval.go:451-483 | an integer or shared boolean converted to AST evaluates back to itself |
| Evaluator.QuoteWithoutUnquote | eval/eval.go:413-418 | quoting a node without unquote calls gives that node unchanged and the store unchanged |
| Evaluator.OneStatementBlock | eval/eval.go:317-345 | a block of one statement gives that statement's outcome |
| Evaluator.IfFalseExample | eval/eval.go:41-53 | `if (false) {100}` is null |
| Evaluator.IfZeroExample | eval/eval.go:29-53 | `if (0) {100}` is 100 |
| Evaluator.IfElseExample | eval/eval.go:41-53 | `if (1>2) {1} else {2}` is 2 |
| Evaluator.StringsCompared | eval/eval.go:207-223 | comparing two string literals with `==` allocates one fresh Boolean holding whether they are equal |
| Evaluator.StringComparisonConditionExample | eval/eval.go:207-223 | `if ("a"=="b") {1} else {2}` is 1 and allocates one boolean |
| Evaluator.UnquoteSumSite | eval/eval.go:420-483 | the unquote site `unquote(4+4)` is replaced by the literal 8 and the store is unchanged |
| Evaluator.UnquoteWholeExample | eval/eval.go:413-483 | `quote(unquote(4+4))` is `QUOTE(8)` |
| Evaluator.UnquoteOperandExample | eval/eval.go:413-483 | `quote(8 + unquote(4+4))` is `QUOTE((8+8))` |
| Evaluator.EvalQuoteExample | eval/eval.go:485-495 | evaluating a quoted `1+2` gives 3 |
| Evaluator.AddBodyExample | eval/eval.go:317-345 | `x + y` with x=1 and y=2 gives 3 |
| Evaluator.ArgumentsExample | eval/eval.go:182-192 | arguments 1, 2 evaluate in order |
| Evaluator.AddCallExample | eval/eval.go:160-180 | `fn(x, y) {x + y}` called with 1, 2 gives 3 |
| Evaluator.AddStatementExample | eval/eval.go:55-158 | `add(1,2)` with `add` bound gives 3 |
| Evaluator.ProgramExample | eval/eval_test.go:143 | `let add = fn(x, y) {x + y;}; add(1,2)` gives 3 |
| Macros.IsMacroDef | eval/macro.go:51-62 | a macro definition is a let whose value is a macro literal |
| Macros.MacroOf | eval/macro.go:32-49 | the macro object closes over the defining environment |
| Macros.AddMacro | eval/macro.go:32-49 | succeeds iff the statement is a let bound to a macro literal; a nil let panics; the two exact errors otherwise; binds the name and changes no other lookup |
| Macros.Defined | eval/macro.go:13-30 | defining macros adds no scope and allocates nothing |
| Macros.FirstNilLet | eval/macro.go:16-22 | the position of the first nil let: none before it, and a nil let at it unless it is the end |
| Macros.DefineMacros | eval/macro.go:13-30 | without nil lets the program keeps its non-macro statements in order and the store binds every macro definition; otherwise it panics at the first nil let, with the program untouched and the definitions before it bound |
| Macros.DeleteMarked | eval/macro.go:26-28 | deleting the marked indices, last first, leaves exactly the non-macro statements |
| Macros.RemainingIsFilter | eval/macro.go:13-30 | what remains is exactly the non-macro statements of the program |
| Macros.RemainingAppend | eval/macro.go:13-30 | the filter distributes over concatenation |
| Macros.RemainingNone | eval/macro.go:13-30 | a program without macro definitions is left as is |
| Macros.SecondDefinePassChangesNothing | eval/macro.go:13-30 | running the pass again changes neither the program nor the store |
| Macros.DefinedNone | eval/macro.go:13-30 | without macro definitions the store is unchanged |
| Macros.DefinedLookup | eval/macro.go:13-49 | a name never defined resolves as before; otherwise it resolves to the macro of its last definition |
| Macros.DefinedKeeps | eval/macro.go:13-49 | a name no definition binds resolves, from every scope, as before |
| Macros.DefinedLast | eval/macro.go:13-49 | a name resolves to the macro of its last definition |
| Macros.MacroCalled | eval/macro.go:64-80 | a call is a macro call iff its callee is an identifier bound to a macro |
| Macros.QuotedArgs | eval/macro.go:97-103 | every argument is wrapped in a quote, in order |
| Macros.ExpansionScope | eval/macro.go:93-103 | a new scope enclosed by the expansion environment, with the existing scopes unchanged |
| Macros.ExpandAt | eval/macro.go:84-116 | non-macro nodes are returned unchanged; expansion only adds scopes |
| Macros.Expander | eval/macro.go:84-116 | each expansion step only adds scopes |
| Macros.ExpansionKept | eval/macro.go:84-116 | "only adds scopes" is reflexive and transitive |
| Macros.ExpandMacros | eval/macro.go:83-118 | the program's statements are replaced by the rewrite with the expander; the store only gains scopes |
| Macros.ExpansionKeepsBindings | eval/macro.go:83-118 | expansion changes no lookup from any existing scope |
| Macros.ExpandWithoutMacroCalls | eval/macro.go:83-118 | a program without macro calls comes back unchanged |
| Macros.QuoteBodyReplacesCall | eval/macro.go:104-115 | a macro body that yields a quote replaces the call by the quoted node |
| Macros.FailingBodyKeepsCall | eval/macro.go:106-110 | a macro body that fails with an error leaves the call in place |
| Macros.NonQuoteBodyPanics | eval/macro.go:111-114 | a macro body that yields anything but a quote panics |
| Macros.TooManyArgumentsPanics | eval/macro.go:97-103 | more arguments than parameters panic with index out of range |
| Macros.ExpansionScopeBinds | eval/macro.go:93-103 | in the expansion scope each parameter sees its quoted argument, and other names fall through to the expansion environment |
| Macros.DefineRemovesExample | eval/macro_test.go:13-44 | of the `number`, `f` and `m` definitions only the first two statements remain |
| Macros.DefineBindsExample | eval/macro_test.go:13-44 | `m` is bound to a macro over (x, y) whose body is `x + y` |
| Macros.DefineSkipsOthersExample | eval/macro_test.go:13-44 | `number` and `f` are not bound |
| Macros.ExpandConstantExample | eval/macro_test.go:60-63 | `e()` with `e = macro() {quote(1+2)}` expands to `(1+2)` |
| Macros.UnquoteParameterExample | eval/macro.go:97-103 | unquoting a parameter gives back the argument's node |
| Macros.ReverseBodyExample | eval/macro_test.go:53-57 | the body of `reverse_sub` yields a quote of `b - a` |
| Macros.ExpandReverseExample | eval/macro_test.go:53-57 | `reverse_sub(a, b)` expands to `(b - a)` for any argument nodes |
| Parser.TokenAt | parser/parser.go:32-35 | the lexer hands out the tokens in order, then EOF for ever |
| Parser.NextSemicolon | parser/parser.go:100-104 | the first `;` at or after a position |
| Parser.PeekErrorMessage | parser/parser.go:65-68 | the message starts with `expected next token to be <kind>` and ends with the kind that came |
| Parser.StepAt | parser/parser.go:37-107 | one round yields a statement iff the token is `let`: a value-less let for `let IDENT =`, else the nil let with exactly one error; nothing and no error for other tokens; it always advances |
| Parser.Parse | parser/parser.go:37-49 | every statement is the nil let or a value-less let; no more errors than statements, no more statements than tokens |
| Parser.ParseRound | parser/parser.go:37-49 | parsing is one round followed by the rest |
| Parser.Parser.constructor | parser/parser.go:21-30 | `New` reads the first two tokens and records no error |
| Parser.Parser.NextToken | parser/parser.go:32-35 | shifts the peek token to the current one and reads the next |
| Parser.Parser.Errors | parser/parser.go:51-53 | the recorded errors, oldest first |
| Parser.Parser.PeekError | parser/parser.go:65-68 | appends exactly the expected/got message |
| Parser.Parser.ExpectPeek | parser/parser.go:70-78 | advances with no error iff the peek token has the kind; otherwise stays and records one error |
| Parser.Parser.ParseLetStatement | parser/parser.go:80-107 | a value-less let for `let IDENT =`, with the tokens up to `;` skipped; the nil let after a failed expectation, with the position where it stopped and one error |
| Parser.Parser.ParseStatement | parser/parser.go:55-63 | exactly one round of `StepAt`: the (possibly nil) let for `let`, nothing for other tokens |
| Parser.Parser.ParseProgram | parser/parser.go:37-49 | the statements and errors `Parse` gives from the current token, nil lets included |
| Parser.ParsedLetsComeFromHeads | parser/parser.go:37-107 | every parsed statement comes from a `let` token in the stream: the value-less let of a `let IDENT =`, or the nil let of a broken head |
| Parser.NoLetNoOutput | parser/parser.go:55-63 | without a `let` token nothing is parsed and nothing reported |
| Parser.ErrorsAreFailedExpectations | parser/parser.go:65-78 | every error is a failed expectation |
| Parser.ParseLetExample | parser/parser_test.go:125-178 | `let x = 5;` gives one let for `x`, whose value is not parsed |
| Parser.ParseMissingNameExample | parser/parser.go:80-91 | `let = 5;` reports the missing identifier and yields one nil let |

## Left out

- The lexer (`lexer` package) is not part of this model; the parser takes a token sequence.
- The expression parser is not part of this model. `parser/parser.go` parses only `let`
  statement heads and skips every other token. Parsed lets have no value, and nothing
  else is parsed.
- `Parser.Parser.ParseProgram` requires every `let IDENT =` to be followed by `;` and no
  EOF token inside the input. Without the `;`, the Go skip loop reads EOF for ever and
  never terminates.
- The parser's diagnostic output to standard error is left out.
- The REPL, `main.go` and all terminal I/O are left out.
- Go maps (environment and hash tables) are modelled as Dafny maps and as entry sequences
  in insertion order. Go's random iteration order is not modelled; the model visits
  entries in insertion order. This affects `Inspect` of a hash, the printing of a hash
  literal (`ast/ast.go:393-395`), the key order `evalHashLiteral` evaluates in
  (`eval/eval.go:351`) and the order `Modify` rewrites hash pairs in.
- `parser/parser.go:84,92` name the type `ast.Identifer`, which `ast/ast.go` does not
  declare (it declares `Identifier`). The model reads it as `ast.Identifier`.
- Operators.Quoted: `%q` is modelled as surrounding double quotes. Go's escaping of
  quotes, backslashes and non-printable characters is not modelled.
- Object.StringKeyDigests: only the digests of "" and "a" are computed. FNV-1a is
  modelled bit for bit, but no other concrete digest is proved.
- In-place mutation and aliasing of AST nodes by `ast.Modify` are not modelled; the model
  rebuilds nodes. In Go, evaluating the same `quote` twice sees the AST the first
  evaluation mutated.
- `Modify` on a `let` without a value calls the modifier on a nil node. The model panics
  there instead. Parsed lets always lack a value, so `ExpandMacros` on a parsed program
  that contains a `let` panics, in Go and in the model.
- `Modify` does not descend into a call's callee or arguments. A macro call nested inside
  another call is therefore never expanded, in Go and in the model.
- Evaluator: recursion is bounded by `fuel`. A program that needs more calls than the
  fuel allows ends in `Exhausted`, where Go would keep running or overflow its stack.
- Evaluator.EvalExpr: the contract states store preservation only. Values are pinned by
  the lemmas and examples beside it, not by a full functional contract.
- Evaluator.CallFunction: its own contract states store preservation only. More arguments
  than parameters are accepted and the extras ignored, as in `eval/eval.go:164-166`.
  `CallRunsBody` and `CallOutcomes` state what each kind of callee gives.
- Evaluator.EvalLiteral: its own contract states store preservation only. The evaluation
  rule and the panic on a value that is not a quote are stated by `EvalCallRule`.
- Macros.ExpandAt: too many arguments panic with index out of range, as in
  `eval/macro.go:97-103`.
- Macros.DefineMacros: the error result of the Go function is always nil, or the function
  panics at a nil let; the model returns `Ok(())` or that panic.
- Ast.StmtString: the nil let prints as nothing, where Go's `String` would dereference it
  and panic. Only `Program.String` models that panic; the parser puts nil lets only at the
  top level of a program.
- Builtins.LenOf: a length is converted to a 64-bit Go `int` with `Wrap`. Lengths of
  2^63 or more cannot occur in practice.
- The `Env.Environment` class keeps the flat `Get`/`Set` of `object/environment.go`. The
  evaluator uses the scope store instead, because the code it calls (`NewEnvironment(env)`)
  needs chained scopes.
