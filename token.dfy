/** Token kinds of the Monkey language and the keyword table (token/token.go). */
module Token {

  /** A token kind is its spelling, as Go's `TokenType string` constants are. */
  type TokenType = string

  const ILLEGAL: TokenType := "ILLEGAL"
  const EOF: TokenType := "EOF"

  const IDENT: TokenType := "IDENT"
  const INT: TokenType := "INT"
  const STRING: TokenType := "STRING"

  const ASSIGN: TokenType := "="
  const PLUS: TokenType := "+"
  const MINUS: TokenType := "-"
  const BANG: TokenType := "!"
  const ASTERISK: TokenType := "*"
  const SLASH: TokenType := "/"

  const COMMA: TokenType := ","
  const SEMICOLON: TokenType := ";"
  const COLON: TokenType := ":"

  const LPAREN: TokenType := "("
  const RPAREN: TokenType := ")"
  const LBRACE: TokenType := "{"
  const RBRACE: TokenType := "}"
  const LBRACKET: TokenType := "["
  const RBRACKET: TokenType := "]"

  const LET: TokenType := "let"
  const FUNCTION: TokenType := "fn"
  const MACRO: TokenType := "macro"
  const IF: TokenType := "if"
  const ELSE: TokenType := "else"
  const RETURN: TokenType := "return"
  const TRUE: TokenType := "true"
  const FALSE: TokenType := "false"
  const NULL: TokenType := "null"

  const LT: TokenType := "<"
  const GT: TokenType := ">"

  const EQ: TokenType := "=="
  const NOT_EQ: TokenType := "!="

  /** The kinds that are neither identifiers nor keywords. */
  const NonWordKinds: set<TokenType> := {
    ILLEGAL, EOF, INT, STRING, ASSIGN, PLUS, MINUS, BANG, ASTERISK, SLASH,
    COMMA, SEMICOLON, COLON, LPAREN, RPAREN, LBRACE, RBRACE, LBRACKET, RBRACKET,
    LT, GT, EQ, NOT_EQ
  }

  datatype Token = Token(typ: TokenType, literal: string)

  /** The keyword table: reserved word to token kind. */
  const Keywords: map<string, TokenType> := map[
    "fn" := FUNCTION,
    "macro" := MACRO,
    "let" := LET,
    "if" := IF,
    "else" := ELSE,
    "return" := RETURN,
    "true" := TRUE,
    "false" := FALSE,
    "null" := NULL
  ]

  /**
   * Classifies a scanned word: a keyword is its own kind (each keyword kind is
   * spelled like the keyword), anything else is an identifier.
   */
  function LookupIdent(ident: string): (t: TokenType)
    ensures t == IDENT <==> ident !in Keywords
    ensures t != IDENT ==> t == ident
    ensures t !in NonWordKinds
  {
    if ident in Keywords then Keywords[ident] else IDENT
  }

  /** The nine reserved words, each classified as the keyword kind of its own name. */
  lemma KeywordKinds()
    ensures LookupIdent("fn") == FUNCTION && LookupIdent("macro") == MACRO
    ensures LookupIdent("let") == LET && LookupIdent("if") == IF
    ensures LookupIdent("else") == ELSE && LookupIdent("return") == RETURN
    ensures LookupIdent("true") == TRUE && LookupIdent("false") == FALSE
    ensures LookupIdent("null") == NULL
    ensures |Keywords| == 9
  {
    assert Keywords.Keys == {"fn", "macro", "let", "if", "else", "return", "true", "false", "null"};
  }

  /** No two reserved words share a kind. */
  lemma KeywordKindsDistinct(a: string, b: string)
    requires a in Keywords && b in Keywords && a != b
    ensures LookupIdent(a) != LookupIdent(b)
  {
  }
}
