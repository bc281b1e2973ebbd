/** The token kinds, declared alike in the lexer and in the intermediate-record header. */
module Kinds {
  datatype TokenType =
    | TK_SYMBOL
    | TK_ADDRESS
    | TK_LITERAL
    | TK_PERCENT
    | TK_DOLLAR
    | TK_EQUAL
    | TK_COLON
    | TK_COMMA
    | TK_NEWLINE
}
