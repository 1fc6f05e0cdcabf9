/** The token vocabulary shared by the scanner and the parser. The constants are the ones
    `src/js/Scanner.js` imports from the token-type module `./tokenType` it requires at line 41. */
module Tokens {

  datatype TokenType =
    // single-character punctuation
    | LeftParen | RightParen | LeftBrace | RightBrace
    | Comma | Dot | Minus | Plus | Semicolon | Slash | Star
    // one- or two-character operators
    | Bang | BangEqual | Equal | EqualEqual
    | Greater | GreaterEqual | Less | LessEqual
    // literals
    | Identifier | String | Number
    // reserved words
    | And | Class | Else | False | Fun | For | If | Nil | Or
    | Print | Return | Super | This | True | Var | While
    | Eof

  /** A literal value: what a NUMBER or STRING token carries (JS `null` for every other token),
      and what a literal node of the syntax tree holds. Numbers are exact reals. */
  datatype LitValue = LNil | LBool(b: bool) | LNum(n: real) | LStr(s: string)

  /** A token: its category, the exact source text it was scanned from, its literal and its line. */
  datatype Token = Token(kind: TokenType, lexeme: string, literal: LitValue, line: nat)
}
