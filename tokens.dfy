/**
 * Token kinds and tokens of the KMSL language.
 *
 * The kinds keep the names of the C++ enumeration `TokenType` so that the
 * model can be read against the source. Besides the enumeration's own
 * members, the set holds COMMA, LBRACE and RBRACE (used by the rule table
 * but missing from the enumeration), INVALID (the kind of a syntax-error
 * token) and the device-action kinds that the interpreter dispatches on.
 */
module Tokens {

  datatype TokenType =
    | IF | ELIF | ELSE | WHILE | FOR | BREAK | CONTINUE | PRINT | INPUT
    | PLUS | MINUS | MULTIPLY | DIVIDE | FLOOR | MODULO | ROOT | LOG | POWER
    | PLUS_ONE | MINUS_ONE
    | BIT_AND | BIT_OR | BIT_XOR | BIT_NOT | BIT_LEFT_SHIFT | BIT_RIGHT_SHIFT
    | LOGICAL_AND | LOGICAL_OR | LOGICAL_NOT
    | EQUALS | NOT_EQUALS | LESS_THAN | GREATER_THAN
    | LESS_THAN_OR_EQUAL | GREATER_THAN_OR_EQUAL
    | ASSIGN
    | PLUS_ASSIGN | MINUS_ASSIGN | MULTIPLY_ASSIGN | DIVIDE_ASSIGN | FLOOR_ASSIGN
    | MODULO_ASSIGN | ROOT_ASSIGN | LOG_ASSIGN | POWER_ASSIGN
    | BIT_AND_ASSIGN | BIT_OR_ASSIGN | BIT_XOR_ASSIGN
    | BIT_LEFT_SHIFT_ASSIGN | BIT_RIGHT_SHIFT_ASSIGN
    | LPAR | RPAR | VARIABLE | BOOL | FLOAT | INT | STRING | SPACE | LINE_END
    // used by the rule table, absent from the enumeration
    | COMMA | LBRACE | RBRACE
    // the kind of the token that a failed match returns
    | INVALID
    // kinds the interpreter dispatches on
    | EXIT | PRESS | HOLD | RELEASE | MOVE | DMOVE | SCROLL | TYPE
    | STATE | WAIT | GETX | GETY

  /** A token: its kind, the text it was made from and its offset in the source. */
  datatype Token = Token(kind: TokenType, text: string, pos: int)

  /** The token that `Token(p)` builds for a syntax error at offset `p`. */
  function InvalidAt(p: int): (t: Token)
    ensures t.kind == INVALID && t.text == "" && t.pos == p
  {
    Token(INVALID, "", p)
  }

  /** The fourteen compound-assignment kinds (everything in the assignment family but `=`). */
  predicate IsCompoundAssign(k: TokenType)
  {
    k.PLUS_ASSIGN? || k.MINUS_ASSIGN? || k.MULTIPLY_ASSIGN? || k.DIVIDE_ASSIGN? || k.FLOOR_ASSIGN?
      || k.MODULO_ASSIGN? || k.ROOT_ASSIGN? || k.LOG_ASSIGN? || k.POWER_ASSIGN? || k.BIT_AND_ASSIGN?
      || k.BIT_OR_ASSIGN? || k.BIT_XOR_ASSIGN? || k.BIT_LEFT_SHIFT_ASSIGN?
      || k.BIT_RIGHT_SHIFT_ASSIGN?
  }

  /** The fifteen kinds of the assignment family: `=` and the compound forms. */
  predicate IsAssignment(k: TokenType)
  {
    k == ASSIGN || IsCompoundAssign(k)
  }

  /** The operators that the interpreters hand to the binary operator table. */
  predicate IsTableOperator(k: TokenType)
  {
    k.MULTIPLY? || k.DIVIDE? || k.MODULO? || k.POWER? || k.FLOOR? || k.LOG? || k.BIT_AND?
      || k.BIT_OR? || k.BIT_XOR? || k.BIT_LEFT_SHIFT? || k.BIT_RIGHT_SHIFT? || k.PLUS? || k.MINUS?
      || k.LOGICAL_AND? || k.LOGICAL_OR? || k.LESS_THAN? || k.GREATER_THAN? || k.LESS_THAN_OR_EQUAL?
      || k.GREATER_THAN_OR_EQUAL? || k.EQUALS? || k.NOT_EQUALS? || k.ROOT?
  }

  /** The six comparison operators. */
  predicate IsComparison(k: TokenType)
  {
    k.LESS_THAN? || k.GREATER_THAN? || k.LESS_THAN_OR_EQUAL? || k.GREATER_THAN_OR_EQUAL?
      || k.EQUALS? || k.NOT_EQUALS?
  }
}
