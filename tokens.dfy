/** Token kinds, literal values and tokens shared by every stage. */
module Tokens {

  /** Every kind of token the scanner emits or the parsers test for. */
  datatype TokenType =
    // single-character punctuation
    | LeftParen | RightParen | LeftBrace | RightBrace
    | Comma | Dot | Minus | Plus | Semicolon | Slash | Star
    | QuestionMark | Colon
    // one- or two-character operators
    | Bang | BangEqual | Equal | EqualEqual
    | Greater | GreaterEqual | Less | LessEqual
    // literals
    | Identifier | String | Number
    // keywords
    | And | Class | Else | False | Fun | For | If | Nil | Or
    | Print | Return | Super | This | True | Var | While
    | Eof

  /**
   * The values a token or a literal expression can carry. `Null` is the
   * single NULL object the source uses both as "no literal" on a token and
   * as the language's nil value. Numbers are exact reals here; the rounding
   * of the host's double-precision values is not modelled.
   */
  datatype Literal = Null | Bool(b: bool) | Num(n: real) | Str(s: string)

  /** A scanned token: its kind, the source text it came from, its literal and its line. */
  datatype Token = Token(kind: TokenType, lexeme: string, literal: Literal, line: int)

  /** The keyword kinds, in the order of the scanner's keyword table. */
  predicate IsKeyword(k: TokenType)
  {
    k in {And, Class, Else, False, For, Fun, If, Nil, Or, Print, Return, Super, This, True, Var, While}
  }

  /**
   * The fixed spelling of every kind whose lexeme does not vary: operators,
   * punctuation and keywords. Identifier, String, Number and Eof have none.
   */
  function Spelling(k: TokenType): string
  {
    match k
    case LeftParen => "(" case RightParen => ")"
    case LeftBrace => "{" case RightBrace => "}"
    case Comma => "," case Dot => "." case Minus => "-" case Plus => "+"
    case Semicolon => ";" case Slash => "/" case Star => "*"
    case QuestionMark => "?" case Colon => ":"
    case Bang => "!" case BangEqual => "!="
    case Equal => "=" case EqualEqual => "=="
    case Greater => ">" case GreaterEqual => ">="
    case Less => "<" case LessEqual => "<="
    case And => "and" case Class => "class" case Else => "else"
    case False => "false" case Fun => "fun" case For => "for"
    case If => "if" case Nil => "nil" case Or => "or"
    case Print => "print" case Return => "return" case Super => "super"
    case This => "this" case True => "true" case Var => "var" case While => "while"
    case Identifier => "" case String => "" case Number => "" case Eof => ""
  }

  /**
   * What a token stands for in a syntax tree: an identifier is a name
   * together with its position, a literal token the value it carries (the
   * keywords `true`, `false` and `nil` their constant), an operator the
   * token itself, and any other token only its kind.
   */
  datatype Piece = Kind(kind: TokenType) | Exact(token: Token) | Named(position: nat, name: Token) | Value(value: Literal)

  /** The piece the token `t` at `position` stands for. */
  function Shape(t: Token, position: nat): Piece
  {
    match t.kind
    case Identifier => Named(position, t)
    case Number | String => Value(t.literal)
    case True => Value(Bool(true))
    case False => Value(Bool(false))
    case Nil => Value(Null)
    case Minus | Plus | Slash | Star | Bang | BangEqual | EqualEqual
       | Greater | GreaterEqual | Less | LessEqual | And | Or => Exact(t)
    case _ => Kind(t.kind)
  }

  /** The piece of every token of a list, position by position. */
  function Shapes(ts: seq<Token>): seq<Piece>
  {
    seq(|ts|, i requires 0 <= i < |ts| => Shape(ts[i], i))
  }

  /** What the piece at a position tells of the token there. */
  lemma ShapeKind(tokens: seq<Token>, i: nat)
    requires i < |tokens|
    ensures Shapes(tokens)[i].Exact? ==> Shapes(tokens)[i].token == tokens[i]
    ensures Shapes(tokens)[i].Kind? ==> Shapes(tokens)[i].kind == tokens[i].kind
    ensures Shapes(tokens)[i].Value? ==> tokens[i].kind in {Number, String, True, False, Nil}
    ensures Shapes(tokens)[i].Named? ==> tokens[i].kind == Identifier && Shapes(tokens)[i] == Named(i, tokens[i])
  {
  }

  /** A token list as the scanner hands it over: never empty, and closed by the end-of-input token. */
  predicate Terminated(tokens: seq<Token>)
  {
    |tokens| > 0 && tokens[|tokens| - 1].kind == Eof
  }
}
