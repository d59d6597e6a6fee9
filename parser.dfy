/**
 * The parser of parser/parser.go: a two-token lookahead over the lexer's
 * token stream with an error list. It recognises `let NAME =`, skips to the
 * next `;`, and passes over every other token.
 */
module Parser {
  import opened Wrappers
  import opened Token
  import opened Ast

  /**
   * The lexer's output: the tokens of `ts`, then EOF for ever after (the
   * lexer keeps answering EOF once its input is used up).
   */
  function TokenAt(ts: seq<Token>, i: nat): (t: Token)
    ensures i < |ts| ==> t == ts[i]
    ensures i >= |ts| ==> t.typ == EOF
  {
    if i < |ts| then ts[i] else Token(EOF, "")
  }

  /** The lexer emits EOF only once its input is used up. */
  predicate NoEof(ts: seq<Token>)
  {
    forall i | 0 <= i < |ts| :: ts[i].typ != EOF
  }

  /** `let IDENT =` starts at `i`. */
  predicate LetHeadAt(ts: seq<Token>, i: nat)
  {
    i + 2 < |ts| && ts[i].typ == LET && ts[i + 1].typ == IDENT && ts[i + 2].typ == ASSIGN
  }

  predicate SemicolonFrom(ts: seq<Token>, k: nat)
  {
    exists j | k <= j < |ts| :: ts[j].typ == SEMICOLON
  }

  /**
   * Every `let IDENT =` is followed by a `;`. Without one, the skip loop of
   * `parseLetStatement` reads EOF for ever and never ends.
   */
  predicate SemicolonAfterLets(ts: seq<Token>)
  {
    forall i | 0 <= i < |ts| && LetHeadAt(ts, i) :: SemicolonFrom(ts, i + 2)
  }

  /** The first `;` at or after `k`. */
  function NextSemicolon(ts: seq<Token>, k: nat): (j: nat)
    requires SemicolonFrom(ts, k)
    ensures k <= j < |ts| && ts[j].typ == SEMICOLON
    ensures forall m | k <= m < j :: ts[m].typ != SEMICOLON
    decreases |ts| - k
  {
    if ts[k].typ == SEMICOLON then k
    else
      assert SemicolonFrom(ts, k + 1) by {
        var j :| k <= j < |ts| && ts[j].typ == SEMICOLON;
        assert j != k;
      }
      NextSemicolon(ts, k + 1)
  }

  /** The message `peekError` appends: it names the expected kind, then the kind met, last. */
  function PeekErrorMessage(expected: TokenType, got: TokenType): (m: string)
    ensures "expected next token to be " + expected <= m
    ensures |got| <= |m| && m[|m| - |got|..] == got
  {
    "expected next token to be " + expected + ", but got " + got
  }

  /**
   * One round of `ParseProgram`'s loop with the current token at `i`: the
   * statement `parseStatement` gives (`None` for the untyped nil it returns
   * on a token other than `let`), where the following `nextToken` leaves the
   * current token, and the errors recorded.
   */
  datatype Step = Step(stmt: Option<Stmt>, next: nat, errs: seq<string>)

  /**
   * A token other than `let` gives nothing; `let` not followed by IDENT, or
   * `let IDENT` not followed by `=`, gives one error and the nil let, which
   * the program keeps; `let IDENT =` gives a let statement with that name and
   * no value, and the tokens up to the next `;` are skipped.
   */
  function StepAt(ts: seq<Token>, i: nat): (s: Step)
    requires SemicolonAfterLets(ts) && i < |ts|
    ensures i < s.next <= |ts|
    ensures s.stmt.Some? <==> ts[i].typ == LET
    ensures LetHeadAt(ts, i) ==> s.stmt == Some(Let(ts[i].literal, ts[i + 1].literal, None)) && s.errs == []
    ensures ts[i].typ == LET && !LetHeadAt(ts, i) ==> s.stmt == Some(NilLet) && |s.errs| == 1
    ensures ts[i].typ != LET ==> s.errs == []
  {
    if ts[i].typ != LET then Step(None, i + 1, [])
    else if TokenAt(ts, i + 1).typ != IDENT then Step(Some(NilLet), i + 1, [PeekErrorMessage(IDENT, TokenAt(ts, i + 1).typ)])
    else if TokenAt(ts, i + 2).typ != ASSIGN then Step(Some(NilLet), i + 2, [PeekErrorMessage(ASSIGN, TokenAt(ts, i + 2).typ)])
    else
      assert LetHeadAt(ts, i);
      Step(Some(Let(ts[i].literal, ts[i + 1].literal, None)), NextSemicolon(ts, i + 2) + 1, [])
  }

  /** The statements and the new errors of parsing from the token at `i` to the end. */
  datatype Parsed = Parsed(stmts: seq<Stmt>, errs: seq<string>)

  /**
   * Each statement is a value-less let or the nil let, and each takes at
   * least one token; each error comes with a statement.
   */
  function Parse(ts: seq<Token>, i: nat): (p: Parsed)
    requires SemicolonAfterLets(ts)
    ensures forall s <- p.stmts :: s == NilLet || (s.Let? && s.value.None?)
    ensures |p.errs| <= |p.stmts| && (i <= |ts| ==> |p.stmts| <= |ts| - i)
    decreases |ts| - i
  {
    if i >= |ts| then Parsed([], [])
    else
      var s := StepAt(ts, i);
      var rest := Parse(ts, s.next);
      Parsed((if s.stmt.Some? then [s.stmt.value] else []) + rest.stmts, s.errs + rest.errs)
  }

  /** Parsing from `i` is one round followed by parsing from where the round stops. */
  lemma ParseRound(ts: seq<Token>, i: nat, done: seq<Stmt>, found: seq<string>)
    requires SemicolonAfterLets(ts) && i < |ts|
    ensures var s := StepAt(ts, i);
      var rest := Parse(ts, s.next);
      var p := Parse(ts, i);
      done + p.stmts == done + (if s.stmt.Some? then [s.stmt.value] else []) + rest.stmts
      && found + p.errs == found + s.errs + rest.errs
  {
  }

  class Parser {
    /** The lexer's input. */
    const tokens: seq<Token>
    /** How many tokens the lexer has handed out. */
    var read: nat
    var errors: seq<string>
    var curToken: Token
    var peekToken: Token

    /** `curToken` and `peekToken` are the last two tokens the lexer handed out. */
    predicate Valid()
      reads this
    {
      read >= 2 && curToken == TokenAt(tokens, read - 2) && peekToken == TokenAt(tokens, read - 1)
    }

    /** The stream index of `curToken`. */
    function Position(): nat
      requires Valid()
      reads this
    {
      read - 2
    }

    /** `New`: the current and peek tokens are the first two of the stream, and there are no errors. */
    constructor (ts: seq<Token>)
      ensures tokens == ts && Valid() && Position() == 0 && errors == []
      ensures curToken == TokenAt(ts, 0) && peekToken == TokenAt(ts, 1)
    {
      tokens := ts;
      read := 0;
      errors := [];
      curToken := Token("", "");
      peekToken := Token("", "");
      new;
      NextToken();
      NextToken();
    }

    /** Shifts the peek token into the current one and reads a new peek token. */
    method NextToken()
      modifies this
      ensures curToken == old(peekToken) && peekToken == TokenAt(tokens, old(read))
      ensures read == old(read) + 1 && errors == old(errors)
      ensures old(Valid()) ==> Valid() && Position() == old(Position()) + 1
    {
      curToken := peekToken;
      peekToken := TokenAt(tokens, read);
      read := read + 1;
    }

    /** `Errors()`: every message recorded so far, oldest first. */
    function Errors(): (es: seq<string>)
      reads this
      ensures es == errors
    {
      errors
    }

    method PeekError(t: TokenType)
      modifies this
      ensures errors == old(errors) + [PeekErrorMessage(t, peekToken.typ)]
      ensures read == old(read) && curToken == old(curToken) && peekToken == old(peekToken)
    {
      errors := errors + [PeekErrorMessage(t, peekToken.typ)];
    }

    /**
     * Advances exactly one token and adds no error when the peek token has
     * kind `t`; otherwise stays put and appends exactly one error.
     */
    method ExpectPeek(t: TokenType) returns (ok: bool)
      requires Valid()
      modifies this
      ensures Valid()
      ensures ok <==> old(peekToken).typ == t
      ensures ok ==> Position() == old(Position()) + 1 && errors == old(errors)
      ensures !ok ==> Position() == old(Position()) && errors == old(errors) + [PeekErrorMessage(t, old(peekToken).typ)]
    {
      if peekToken.typ == t {
        NextToken();
        return true;
      } else {
        PeekError(t);
        return false;
      }
    }

    /**
     * `parseLetStatement`, entered at a `let` token: the statement when
     * IDENT and `=` follow, with the current token left at the next `;`;
     * otherwise the nil let, with the current token left where the failed
     * expectation stopped.
     */
    method ParseLetStatement() returns (stmt: Stmt)
      requires Valid() && curToken.typ == LET && SemicolonAfterLets(tokens)
      modifies this
      ensures Valid()
      ensures var i := old(Position());
        if TokenAt(tokens, i + 1).typ != IDENT then
          stmt == NilLet && Position() == i && errors == old(errors) + [PeekErrorMessage(IDENT, TokenAt(tokens, i + 1).typ)]
        else if TokenAt(tokens, i + 2).typ != ASSIGN then
          stmt == NilLet && Position() == i + 1 && errors == old(errors) + [PeekErrorMessage(ASSIGN, TokenAt(tokens, i + 2).typ)]
        else
          LetHeadAt(tokens, i)
          && stmt == Let(tokens[i].literal, tokens[i + 1].literal, None)
          && Position() == NextSemicolon(tokens, i + 2) && curToken.typ == SEMICOLON && errors == old(errors)
    {
      var i := Position();
      var letTok := curToken;
      var ok := ExpectPeek(IDENT);
      if !ok {
        return NilLet;
      }
      var name := curToken.literal;
      ok := ExpectPeek(ASSIGN);
      if !ok {
        return NilLet;
      }
      assert i < |tokens| && tokens[i].typ == LET;
      assert LetHeadAt(tokens, i);
      var j := NextSemicolon(tokens, i + 2);
      while curToken.typ != SEMICOLON
        invariant Valid() && i + 2 <= Position() <= j && errors == old(errors)
        decreases j - Position()
      {
        NextToken();
      }
      return Let(letTok.literal, name, None);
    }

    /**
     * `parseStatement`: one round of `ParseProgram`'s loop, short of its
     * `nextToken`. The nil let of a broken head is a non-nil `ast.Statement`,
     * so `ParseProgram`'s `stmt != nil` keeps it; only other tokens give nil.
     */
    method ParseStatement() returns (stmt: Option<Stmt>)
      requires Valid() && SemicolonAfterLets(tokens) && Position() < |tokens|
      modifies this
      ensures Valid()
      ensures var s := StepAt(tokens, old(Position()));
        stmt == s.stmt && Position() + 1 == s.next && errors == old(errors) + s.errs
    {
      if curToken.typ == LET {
        var let := ParseLetStatement();
        stmt := Some(let);
      } else {
        stmt := None;
      }
    }

    /**
     * `ParseProgram`: the statements and errors `Parse` gives from the current
     * token; the errors are appended to those recorded before.
     */
    method ParseProgram() returns (program: Program)
      requires Valid() && NoEof(tokens) && SemicolonAfterLets(tokens) && Position() <= |tokens|
      modifies this
      ensures Valid() && fresh(program)
      ensures program.statements == Parse(tokens, old(Position())).stmts
      ensures errors == old(errors) + Parse(tokens, old(Position())).errs
    {
      var statements: seq<Stmt> := [];
      ghost var start := Position();
      ghost var whole := Parse(tokens, start);
      ghost var i := start;
      ghost var found: seq<string> := [];
      while curToken.typ != EOF
        invariant Valid() && i == Position() && start <= i <= |tokens|
        invariant errors == old(errors) + found
        invariant whole.stmts == statements + Parse(tokens, i).stmts
        invariant whole.errs == found + Parse(tokens, i).errs
        decreases |tokens| - i
      {
        assert i < |tokens| && curToken == tokens[i];
        ghost var round := StepAt(tokens, i);
        ghost var before := statements;
        ParseRound(tokens, i, statements, found);
        var stmt := ParseStatement();
        if stmt.Some? {
          statements := statements + [stmt.value];
        }
        assert statements == before + (if round.stmt.Some? then [round.stmt.value] else []);
        NextToken();
        found := found + round.errs;
        i := round.next;
      }
      assert TokenAt(tokens, i).typ == EOF;
      assert i == |tokens|;
      assert statements + [] == statements;
      assert found + [] == found;
      program := new Program(statements);
    }
  }

  // ---------------------------------------------------------------------------
  // Properties of the parse

  /**
   * Every parsed statement comes from a `let` token of the stream, at or after
   * `i`: a value-less let with its name when `let IDENT =` starts there, and
   * the nil let otherwise.
   */
  lemma {:induction false} ParsedLetsComeFromHeads(ts: seq<Token>, i: nat)
    requires SemicolonAfterLets(ts)
    ensures forall st <- Parse(ts, i).stmts :: exists k | i <= k < |ts| ::
      (ts[k].typ == LET && if LetHeadAt(ts, k) then st == Let(ts[k].literal, ts[k + 1].literal, None) else st == NilLet)
    decreases |ts| - i
  {
    if i < |ts| {
      var s := StepAt(ts, i);
      ParsedLetsComeFromHeads(ts, s.next);
    }
  }

  /** Without a `let` token there is nothing to parse and nothing to report. */
  lemma {:induction false} NoLetNoOutput(ts: seq<Token>, i: nat)
    requires SemicolonAfterLets(ts)
    requires forall k | i <= k < |ts| :: ts[k].typ != LET
    ensures Parse(ts, i) == Parsed([], [])
    decreases |ts| - i
  {
    if i < |ts| {
      NoLetNoOutput(ts, i + 1);
    }
  }

  /** Each error is a failed expectation of IDENT or of `=`. */
  lemma {:induction false} ErrorsAreFailedExpectations(ts: seq<Token>, i: nat)
    requires SemicolonAfterLets(ts)
    ensures forall e <- Parse(ts, i).errs :: exists t: TokenType ::
      e == PeekErrorMessage(IDENT, t) || e == PeekErrorMessage(ASSIGN, t)
    decreases |ts| - i
  {
    if i < |ts| {
      var s := StepAt(ts, i);
      ErrorsAreFailedExpectations(ts, s.next);
    }
  }

  /** `let x = 5;` gives one statement, printed `let x = ;` since its value is not parsed. */
  lemma ParseLetExample()
    ensures var ts := [Token(LET, "let"), Token(IDENT, "x"), Token(ASSIGN, "="), Token(INT, "5"), Token(SEMICOLON, ";")];
      SemicolonAfterLets(ts)
      && Parse(ts, 0) == Parsed([Let("let", "x", None)], [])
      && StmtsString(Parse(ts, 0).stmts) == "let x = ;"
  {
    var ts := [Token(LET, "let"), Token(IDENT, "x"), Token(ASSIGN, "="), Token(INT, "5"), Token(SEMICOLON, ";")];
    assert SemicolonFrom(ts, 2) by { assert ts[4].typ == SEMICOLON; }
    assert SemicolonAfterLets(ts);
    assert NextSemicolon(ts, 2) == 4 by {
      assert NextSemicolon(ts, 3) == 4;
    }
    assert StepAt(ts, 0) == Step(Some(Let("let", "x", None)), 5, []);
  }

  /** `let = 5;` reports the missing identifier and keeps one statement, the nil let. */
  lemma ParseMissingNameExample()
    ensures var ts := [Token(LET, "let"), Token(ASSIGN, "="), Token(INT, "5"), Token(SEMICOLON, ";")];
      SemicolonAfterLets(ts)
      && Parse(ts, 0) == Parsed([NilLet], ["expected next token to be IDENT, but got ="])
  {
    var ts := [Token(LET, "let"), Token(ASSIGN, "="), Token(INT, "5"), Token(SEMICOLON, ";")];
    assert !LetHeadAt(ts, 0);
    assert SemicolonAfterLets(ts);
    var msg := PeekErrorMessage(IDENT, ASSIGN);
    assert msg == "expected next token to be IDENT, but got =";
    assert StepAt(ts, 0) == Step(Some(NilLet), 1, [msg]);
    NoLetNoOutput(ts, 1);
    assert [NilLet] + [] == [NilLet];
    assert [msg] + [] == [msg];
  }
}
