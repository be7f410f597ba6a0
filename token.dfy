/** Token kinds, tokens and the reserved-word table of the Lox scanner. */
module Tokens {

  import opened Errors

  /** The closed set of token kinds. Literal kinds carry their payload; a
      number carries its lexeme, since the floating-point value parsed from
      it is not part of this model. */
  datatype TokenType =
    // single-character tokens
    | LeftParen | RightParen | LeftBrace | RightBrace
    | Comma | Dot | Minus | Plus | Semicolon | Slash | Star
    // one- or two-character tokens
    | Bang | BangEqual | Equal | EqualEqual
    | Greater | GreaterEqual | Less | LessEqual
    // literals
    | Identifier(name: string) | String(value: string) | Number(lexeme: string)
    // reserved words
    | And | Class | Else | False | Fun | For | If | Nil
    | Or | Print | Return | Super | This | True | Var | While
    // end of input
    | Eof

  /** A token: its kind and the line it is attributed to. The datatype
      constructor `Token(kind, line)` is the source's `Token::new`. */
  datatype Token = Token(kind: TokenType, line: nat)

  /** The sixteen reserved words of the language. */
  const ReservedWords: set<string> :=
    {"and", "class", "else", "false", "fun", "for", "if", "nil",
     "or", "print", "return", "super", "this", "true", "var", "while"}

  /** The source spelling of a reserved-word kind, and None for every other kind. */
  function KeywordSpelling(kind: TokenType): Option<string>
  {
    match kind
    case And => Some("and")
    case Class => Some("class")
    case Else => Some("else")
    case False => Some("false")
    case Fun => Some("fun")
    case For => Some("for")
    case If => Some("if")
    case Nil => Some("nil")
    case Or => Some("or")
    case Print => Some("print")
    case Return => Some("return")
    case Super => Some("super")
    case This => Some("this")
    case True => Some("true")
    case Var => Some("var")
    case While => Some("while")
    case _ => None
  }

  predicate IsKeyword(kind: TokenType)
  {
    KeywordSpelling(kind).Some?
  }

  /** Classifies the text of a scanned word: a reserved word becomes its
      keyword kind, anything else an identifier carrying the exact text. */
  function KeywordOrIdentifier(text: string): (kind: TokenType)
    ensures IsKeyword(kind) || kind == Identifier(text)
    ensures kind.Identifier? <==> text !in ReservedWords
    ensures IsKeyword(kind) ==> KeywordSpelling(kind) == Some(text)
  {
    match text
    case "and" => And
    case "class" => Class
    case "else" => Else
    case "false" => False
    case "fun" => Fun
    case "for" => For
    case "if" => If
    case "nil" => Nil
    case "or" => Or
    case "print" => Print
    case "return" => Return
    case "super" => Super
    case "this" => This
    case "true" => True
    case "var" => Var
    case "while" => While
    case _ => Identifier(text)
  }

  /** Every keyword kind is what its own spelling classifies as, and its
      spelling is a reserved word. */
  lemma KeywordRoundTrip(kind: TokenType)
    requires IsKeyword(kind)
    ensures KeywordSpelling(kind).value in ReservedWords
    ensures KeywordOrIdentifier(KeywordSpelling(kind).value) == kind
  {
  }

  /** The classification never loses the text: distinct words give distinct
      kinds, so in particular the reserved-word table is injective. */
  lemma KeywordOrIdentifierInjective(a: string, b: string)
    requires KeywordOrIdentifier(a) == KeywordOrIdentifier(b)
    ensures a == b
  {
  }

  /** Classification is exact and case-sensitive. */
  lemma KeywordMatchIsExact()
    ensures KeywordOrIdentifier("class") == Class
    ensures KeywordOrIdentifier("classy") == Identifier("classy")
    ensures KeywordOrIdentifier("Class") == Identifier("Class")
  {
  }
}
